/**
 Inputs on which the quota solver fails, for every shape outside `Convergent`: two small cores, padded with empty strata
 and groups.
 */
module QuotaExamples {
  import opened Prelude
  import opened Apportionment
  import opened Allocation
  import opened QuotaMatrix
  import opened QuotaProgress
  import opened ColumnCorrection
  import opened Stratification
  import opened QuotaPadding

  // ---------------------------------------------------------------------------------
  // Sums and columns of literal matrices
  // ---------------------------------------------------------------------------------

  lemma Sum3(s: seq<int>)
    requires |s| == 3
    ensures Sum(s) == s[0] + s[1] + s[2]
  {
    ThreeSum([0.0, 0.0, 0.0], s);
  }

  lemma Sum4(s: seq<int>)
    requires |s| == 4
    ensures Sum(s) == s[0] + s[1] + s[2] + s[3]
  {
    Sum3(s[..3]);
  }

  lemma Sum5(s: seq<int>)
    requires |s| == 5
    ensures Sum(s) == s[0] + s[1] + s[2] + s[3] + s[4]
  {
    Sum4(s[..4]);
  }

  lemma Sum6(s: seq<int>)
    requires |s| == 6
    ensures Sum(s) == s[0] + s[1] + s[2] + s[3] + s[4] + s[5]
  {
    Sum5(s[..5]);
  }

  function Column(q: Matrix, g: nat): (c: seq<int>)
    requires forall s :: 0 <= s < |q| ==> g < |q[s]|
    ensures |c| == |q| && forall s :: 0 <= s < |q| ==> c[s] == q[s][g]
  {
    seq(|q|, s requires 0 <= s < |q| => q[s][g])
  }

  lemma {:induction false} ColumnSum(q: Matrix, g: nat)
    requires forall s :: 0 <= s < |q| ==> g < |q[s]|
    ensures Col(q, g) == Sum(Column(q, g))
  {
    if q != [] {
      var n := |q| - 1;
      ColumnSum(q[..n], g);
      assert Column(q, g)[..n] == Column(q[..n], g);
    }
  }

  // ---------------------------------------------------------------------------------
  // Cores
  // ---------------------------------------------------------------------------------

  /** A row within floor and ceiling of its ideals that adds up to its stratum. */
  predicate RoundsRow(size: int, counts: seq<int>, total: int, row: seq<int>)
    requires total > 0
  {
    && |row| == |counts| && Sum(row) == size
    && forall g :: 0 <= g < |row| ==>
         0 <= row[g] && IdealRow(size, counts, total)[g].Floor <= row[g] <= Ceiling(IdealRow(size, counts, total)[g])
  }

  /** A core input with the matrix the row phase leaves. */
  ghost predicate Case(sizes: seq<int>, counts: seq<int>, total: int, m: Matrix) {
    && Core(sizes, counts, total) && |m| == |sizes|
    && forall s :: 0 <= s < |m| ==>
         RoundsRow(sizes[s], counts, total, m[s]) && Apportioned(IdealRow(sizes[s], counts, total), m[s])
  }

  lemma CaseFacts(sizes: seq<int>, counts: seq<int>, total: int, m: Matrix)
    requires Case(sizes, counts, total, m)
    ensures Shape(m, |counts|) && RowsMatch(sizes, m)
    ensures RowsApportioned(IdealMatrix(sizes, counts, total), m)
    ensures Tight(IdealMatrix(sizes, counts, total), m, |counts|)
  {
    hide Apportioned, Sum, IdealRow;
  }

  /** The padded row phase. */
  lemma PaddedCase(sizes: seq<int>, counts: seq<int>, total: int, m: Matrix, rows: nat, columns: nat)
    requires Case(sizes, counts, total, m) && |sizes| <= rows && |counts| <= columns
    ensures Shape(m, |counts|)
    ensures ValidInput(Strata(sizes, rows), Strata(counts, columns), Names(columns), total)
    ensures Regular(Strata(sizes, rows), Strata(counts, columns), Names(columns))
    ensures RowPhase(Strata(sizes, rows), Strata(counts, columns), Names(columns), total, PadMatrix(m, rows, columns))
  {
    hide Sum, IdealMatrix, RowsMatch, RowsApportioned, Tight, ValidInput, Regular, KeysInjective, Pad, Strata, Names;
    CaseFacts(sizes, counts, total, m);
    PaddedInput(sizes, counts, total, rows, columns);
    PaddedRows(sizes, m, |counts|, rows, columns);
    PaddedRowPhase(sizes, counts, total, m, rows, columns);
  }

  /** The ideals of a stratum of size 1, 2 or 3 for counts 2, 4 and 6, and its apportionment. */
  lemma ThreeGroupRow(size: int)
    requires 1 <= size <= 3
    ensures IdealRow(size, [2, 4, 6], 12) == ThreeGroupIdeal(size)
    ensures RoundsRow(size, [2, 4, 6], 12, ThreeGroupStart(size))
    ensures Apportioned(IdealRow(size, [2, 4, 6], 12), ThreeGroupStart(size))
  {
    var r := IdealRow(size, [2, 4, 6], 12);
    var x := size as real;
    assert |r| == 3 && r[0] == Share(x, 2.0, 12.0) && r[1] == Share(x, 4.0, 12.0) && r[2] == Share(x, 6.0, 12.0);
    assert r == ThreeGroupIdeal(size);
    Sum3(ThreeGroupStart(size));
  }

  function ThreeGroupIdeal(size: int): seq<real> {
    if size == 1 then [1.0 / 6.0, 1.0 / 3.0, 0.5]
    else if size == 2 then [1.0 / 3.0, 2.0 / 3.0, 1.0]
    else [0.5, 1.0, 1.5]
  }

  function ThreeGroupStart(size: int): seq<int> {
    if size == 1 then [0, 0, 1] else if size == 2 then [0, 1, 1] else [1, 1, 1]
  }

  /** The ideals of a stratum of size 2 or 4 for counts 1, 3, 4 and 4. */
  lemma FourGroupRow(size: int)
    requires size == 2 || size == 4
    ensures IdealRow(size, [1, 3, 4, 4], 12) == FourGroupIdeal(size)
    ensures RoundsRow(size, [1, 3, 4, 4], 12, FourGroupStart(size))
    ensures Apportioned(IdealRow(size, [1, 3, 4, 4], 12), FourGroupStart(size))
  {
    var r := IdealRow(size, [1, 3, 4, 4], 12);
    var x := size as real;
    assert |r| == 4 && r[0] == Share(x, 1.0, 12.0) && r[1] == Share(x, 3.0, 12.0);
    assert r[2] == Share(x, 4.0, 12.0) && r[3] == Share(x, 4.0, 12.0);
    assert r == FourGroupIdeal(size);
    Sum4(FourGroupStart(size));
  }

  function FourGroupIdeal(size: int): seq<real> {
    if size == 2 then [1.0 / 6.0, 0.5, 2.0 / 3.0, 2.0 / 3.0] else [1.0 / 3.0, 1.0, 4.0 / 3.0, 4.0 / 3.0]
  }

  function FourGroupStart(size: int): seq<int> {
    if size == 2 then [0, 0, 1, 1] else [1, 1, 1, 1]
  }

  function ThreeGroupMatrix(sizes: seq<int>): (m: Matrix)
    ensures |m| == |sizes| && forall s :: 0 <= s < |m| ==> m[s] == ThreeGroupStart(sizes[s])
  {
    seq(|sizes|, s requires 0 <= s < |sizes| => ThreeGroupStart(sizes[s]))
  }

  function FourGroupMatrix(sizes: seq<int>): (m: Matrix)
    ensures |m| == |sizes| && forall s :: 0 <= s < |m| ==> m[s] == FourGroupStart(sizes[s])
  {
    seq(|sizes|, s requires 0 <= s < |sizes| => FourGroupStart(sizes[s]))
  }

  lemma ThreeGroupCase(sizes: seq<int>)
    requires Sum(sizes) == 12 && forall s :: 0 <= s < |sizes| ==> 1 <= sizes[s] <= 3
    ensures Case(sizes, [2, 4, 6], 12, ThreeGroupMatrix(sizes))
  {
    hide Sum, RoundsRow, Apportioned, IdealRow, ThreeGroupStart;
    Sum3([2, 4, 6]);
    forall s | 0 <= s < |sizes|
      ensures RoundsRow(sizes[s], [2, 4, 6], 12, ThreeGroupStart(sizes[s]))
              && Apportioned(IdealRow(sizes[s], [2, 4, 6], 12), ThreeGroupStart(sizes[s]))
    {
      ThreeGroupRow(sizes[s]);
    }
  }

  lemma FourGroupCase(sizes: seq<int>)
    requires Sum(sizes) == 12 && forall s :: 0 <= s < |sizes| ==> sizes[s] == 2 || sizes[s] == 4
    ensures Case(sizes, [1, 3, 4, 4], 12, FourGroupMatrix(sizes))
  {
    hide Sum, RoundsRow, Apportioned, IdealRow, FourGroupStart;
    Sum4([1, 3, 4, 4]);
    forall s | 0 <= s < |sizes|
      ensures RoundsRow(sizes[s], [1, 3, 4, 4], 12, FourGroupStart(sizes[s]))
              && Apportioned(IdealRow(sizes[s], [1, 3, 4, 4], 12), FourGroupStart(sizes[s]))
    {
      FourGroupRow(sizes[s]);
    }
  }

  // ---------------------------------------------------------------------------------
  // Six strata, three groups
  // ---------------------------------------------------------------------------------

  const SIX := [3, 1, 1, 1, 3, 3]
  const SIX_ROUNDING: Matrix := [[1, 1, 1], [0, 1, 0], [0, 0, 1], [0, 0, 1], [1, 1, 1], [0, 1, 2]]

  lemma SixDeficits()
    ensures Shape(ThreeGroupMatrix(SIX), 3) && DeficitsOf(ThreeGroupMatrix(SIX), [2, 4, 6]) == [-1, 1, 0]
  {
    hide Sum, Col;
    var m := ThreeGroupMatrix(SIX);
    forall g: nat | g < 3 ensures Col(m, g) == [3, 3, 6][g] {
      ColumnSum(m, g);
      Sum6(Column(m, g));
    }
  }

  /** Column 1 lacks a seat and column 0 has one too many, but no row can move one. */
  lemma SixStuck()
    ensures Shape(ThreeGroupMatrix(SIX), 3)
    ensures Stuck(IdealMatrix(SIX, [2, 4, 6], 12), ThreeGroupMatrix(SIX), DeficitsOf(ThreeGroupMatrix(SIX), [2, 4, 6]))
  {
    hide DeficitsOf, IdealRow, Apportioned, RoundsRow, Col;
    SixDeficits();
    var ideal, m := IdealMatrix(SIX, [2, 4, 6], 12), ThreeGroupMatrix(SIX);
    forall w: Swap ensures !Feasible(ideal, m, [-1, 1, 0], w) {
      if w.stratum < 6 {
        ThreeGroupRow(SIX[w.stratum]);
        assert SIX[w.stratum] == 1 || SIX[w.stratum] == 3;
      }
    }
  }

  /** The cells of `row` are at floor or ceiling. */
  lemma ThreeGroupRounds(size: int, row: seq<int>)
    requires 1 <= size <= 3 && |row| == 3 && row[0] + row[1] + row[2] == size
    requires forall g :: 0 <= g < 3 ==>
               0 <= row[g] && ThreeGroupIdeal(size)[g].Floor <= row[g] <= Ceiling(ThreeGroupIdeal(size)[g])
    ensures RoundsRow(size, [2, 4, 6], 12, row)
  {
    hide Sum, IdealRow, Ceiling, ThreeGroupIdeal;
    ThreeGroupRow(size);
    Sum3(row);
  }

  lemma FourGroupRounds(size: int, row: seq<int>)
    requires (size == 2 || size == 4) && |row| == 4 && row[0] + row[1] + row[2] + row[3] == size
    requires forall g :: 0 <= g < 4 ==>
               0 <= row[g] && FourGroupIdeal(size)[g].Floor <= row[g] <= Ceiling(FourGroupIdeal(size)[g])
    ensures RoundsRow(size, [1, 3, 4, 4], 12, row)
  {
    hide Sum, IdealRow, Ceiling, FourGroupIdeal;
    FourGroupRow(size);
    Sum4(row);
  }

  /** A matrix with the right sums whose cells are all at floor or ceiling. */
  ghost predicate Rounding(sizes: seq<int>, counts: seq<int>, total: int, m: Matrix) {
    && total > 0 && |m| == |sizes| && (forall s :: 0 <= s < |m| ==> RoundsRow(sizes[s], counts, total, m[s]))
    && ColumnsMatch(counts, m)
  }

  lemma SixRounds()
    ensures Rounding(SIX, [2, 4, 6], 12, SIX_ROUNDING)
  {
    hide Sum, Col, RoundsRow;
    var m := SIX_ROUNDING;
    forall g: nat | g < 3 ensures Col(m, g) == [2, 4, 6][g] {
      ColumnSum(m, g);
      Sum6(Column(m, g));
    }
    ThreeGroupRounds(3, [1, 1, 1]);
    ThreeGroupRounds(3, [0, 1, 2]);
    ThreeGroupRounds(1, [0, 1, 0]);
    ThreeGroupRounds(1, [0, 0, 1]);
  }

  // ---------------------------------------------------------------------------------
  // Four strata, four groups
  // ---------------------------------------------------------------------------------

  const FOUR := [2, 2, 4, 4]
  const FOUR_ROUNDING: Matrix := [[0, 1, 0, 1], [0, 0, 1, 1], [0, 1, 2, 1], [1, 1, 1, 1]]

  lemma FourDeficits()
    ensures Shape(FourGroupMatrix(FOUR), 4) && DeficitsOf(FourGroupMatrix(FOUR), [1, 3, 4, 4]) == [-1, 1, 0, 0]
  {
    hide Sum, Col;
    var m := FourGroupMatrix(FOUR);
    forall g: nat | g < 4 ensures Col(m, g) == [2, 2, 4, 4][g] {
      ColumnSum(m, g);
      Sum4(Column(m, g));
    }
  }

  lemma FourStuck()
    ensures Shape(FourGroupMatrix(FOUR), 4)
    ensures Stuck(IdealMatrix(FOUR, [1, 3, 4, 4], 12), FourGroupMatrix(FOUR),
                  DeficitsOf(FourGroupMatrix(FOUR), [1, 3, 4, 4]))
  {
    hide DeficitsOf, IdealRow, Apportioned, RoundsRow, Col;
    FourDeficits();
    var ideal, m := IdealMatrix(FOUR, [1, 3, 4, 4], 12), FourGroupMatrix(FOUR);
    forall w: Swap ensures !Feasible(ideal, m, [-1, 1, 0, 0], w) {
      if w.stratum < 4 {
        FourGroupRow(FOUR[w.stratum]);
        assert FOUR[w.stratum] == 2 || FOUR[w.stratum] == 4;
      }
    }
  }

  lemma FourRounds()
    ensures Rounding(FOUR, [1, 3, 4, 4], 12, FOUR_ROUNDING)
  {
    hide Sum, Col, RoundsRow;
    var m := FOUR_ROUNDING;
    forall g: nat | g < 4 ensures Col(m, g) == [1, 3, 4, 4][g] {
      ColumnSum(m, g);
      Sum4(Column(m, g));
    }
    FourGroupRounds(2, [0, 1, 0, 1]);
    FourGroupRounds(2, [0, 0, 1, 1]);
    FourGroupRounds(4, [0, 1, 2, 1]);
    FourGroupRounds(4, [1, 1, 1, 1]);
  }

  // ---------------------------------------------------------------------------------
  // Failure on every other shape
  // ---------------------------------------------------------------------------------

  /** An input of the given shape that the solver accepts. */
  ghost predicate Shaped(strata: seq<Entry>, groups: seq<Entry>, order: seq<string>, total: int, rows: nat,
                         columns: nat) {
    && |strata| == rows && |order| == columns
    && DistinctKeys(strata) && DistinctKeys(groups) && Distinct(order)
    && ValidInput(strata, groups, order, total) && Regular(strata, groups, order)
  }

  /** The row phase ends in a matrix with a wrong column that no swap can mend. */
  ghost predicate Hopeless(strata: seq<Entry>, groups: seq<Entry>, order: seq<string>, total: int, q: Matrix) {
    FinalRows(strata, groups, order, total, q) && !ColumnsMatch(ColumnCounts(groups, order), q)
  }

  /** A matrix with the right sums and every cell at floor or ceiling. */
  ghost predicate Attainable(strata: seq<Entry>, groups: seq<Entry>, order: seq<string>, total: int, q: Matrix) {
    && ValidInput(strata, groups, order, total)
    && RowsMatch(Counts(strata), q) && ColumnsMatch(ColumnCounts(groups, order), q)
    && Tight(Ideal(strata, groups, order, total), q, |order|)
  }

  lemma PaddedShape(sizes: seq<int>, counts: seq<int>, total: int, m: Matrix, rows: nat, columns: nat)
    requires Case(sizes, counts, total, m) && |sizes| <= rows && |counts| <= columns
    ensures Shaped(Strata(sizes, rows), Strata(counts, columns), Names(columns), total, rows, columns)
  {
    hide ValidInput, Regular, IdealMatrix;
    PaddedInput(sizes, counts, total, rows, columns);
  }

  lemma PaddedHopeless(sizes: seq<int>, counts: seq<int>, total: int, m: Matrix, rows: nat, columns: nat)
    requires Case(sizes, counts, total, m) && |sizes| <= rows && |counts| <= columns && Shape(m, |counts|)
    requires Stuck(IdealMatrix(sizes, counts, total), m, DeficitsOf(m, counts))
    requires |counts| > 0 && DeficitsOf(m, counts)[0] != 0
    ensures Hopeless(Strata(sizes, rows), Strata(counts, columns), Names(columns), total, PadMatrix(m, rows, columns))
  {
    hide Stuck, ValidInput, Regular, RowPhase, IdealMatrix, Names, RowsMatch, Strata, Col, Sum;
    PaddedInput(sizes, counts, total, rows, columns);
    PaddedCase(sizes, counts, total, m, rows, columns);
    PaddedStuck(sizes, counts, total, m, rows, columns);
    PaddedDeficits(counts, m, rows, columns);
    assert DeficitsOf(PadMatrix(m, rows, columns), Pad(counts, columns))[0] != 0;
  }

  lemma PaddedAttainable(sizes: seq<int>, counts: seq<int>, total: int, m: Matrix, rows: nat, columns: nat)
    requires Core(sizes, counts, total) && Rounding(sizes, counts, total, m)
    requires |sizes| <= rows && |counts| <= columns && Shape(m, |counts|)
    ensures Attainable(Strata(sizes, rows), Strata(counts, columns), Names(columns), total, PadMatrix(m, rows, columns))
  {
    hide ValidInput, Regular, Names, Strata, Col, Core, IdealMatrix, PadMatrix, Pad;
    PaddedInput(sizes, counts, total, rows, columns);
    RoundingFacts(sizes, counts, total, m);
    PaddedRows(sizes, m, |counts|, rows, columns);
    PaddedTight(sizes, counts, total, m, rows, columns);
    forall g: nat | g < columns ensures Col(PadMatrix(m, rows, columns), g) == Pad(counts, columns)[g] {
      PadColumn(m, |counts|, rows, columns, g);
      PadAt(counts, columns, g);
    }
  }

  lemma PadAt(core: seq<int>, n: nat, g: nat)
    requires |core| <= n && g < n
    ensures Pad(core, n)[g] == if g < |core| then core[g] else 0
  {
  }

  lemma RoundingFacts(sizes: seq<int>, counts: seq<int>, total: int, m: Matrix)
    requires Rounding(sizes, counts, total, m)
    ensures Shape(m, |counts|) && RowsMatch(sizes, m) && Tight(IdealMatrix(sizes, counts, total), m, |counts|)
  {
    hide Sum, IdealRow;
  }

  /**
   For every shape outside `Convergent` the solver fails on some accepted input, although a matrix with the right sums
   and every cell at floor or ceiling exists.  With the solver's own promise this makes the condition exact.
   */
  method FailingInput(rows: nat, columns: nat)
    returns (strata: seq<Entry>, groups: seq<Entry>, order: seq<string>, total: int, r: Result<Matrix, QuotaError>,
             ghost stuck: Matrix, ghost rounding: Matrix)
    requires !Convergent(rows, columns)
    ensures Shaped(strata, groups, order, total, rows, columns)
    ensures Hopeless(strata, groups, order, total, stuck) && r == Err(NotConverged)
    ensures Attainable(strata, groups, order, total, rounding)
  {
    hide Hopeless, Attainable, Stuck, IdealMatrix, Rounding, Case, Names, Strata, PadMatrix, DeficitsOf, ValidInput,
         Sum;
    total := 12;
    order := Names(columns);
    var sizes, counts;
    if columns == 3 {
      sizes, counts, stuck, rounding := SIX, [2, 4, 6], ThreeGroupMatrix(SIX), SIX_ROUNDING;
      Sum6(SIX);
      ThreeGroupCase(SIX);
      SixDeficits();
      SixStuck();
      SixRounds();
    } else {
      sizes, counts, stuck, rounding := FOUR, [1, 3, 4, 4], FourGroupMatrix(FOUR), FOUR_ROUNDING;
      Sum4(FOUR);
      FourGroupCase(FOUR);
      FourDeficits();
      FourStuck();
      FourRounds();
    }
    strata, groups := Strata(sizes, rows), Strata(counts, columns);
    PaddedShape(sizes, counts, total, stuck, rows, columns);
    PaddedHopeless(sizes, counts, total, stuck, rows, columns);
    CaseCore(sizes, counts, total, stuck);
    RoundingFacts(sizes, counts, total, rounding);
    PaddedAttainable(sizes, counts, total, rounding, rows, columns);
    stuck, rounding := PadMatrix(stuck, rows, columns), PadMatrix(rounding, rows, columns);
    r := Fail(strata, groups, order, total, stuck);
  }

  lemma CaseCore(sizes: seq<int>, counts: seq<int>, total: int, m: Matrix)
    requires Case(sizes, counts, total, m)
    ensures Core(sizes, counts, total)
  {
  }

  /** On a hopeless input the solver reports that it did not converge. */
  method Fail(strata: seq<Entry>, groups: seq<Entry>, order: seq<string>, total: int, ghost q: Matrix)
    returns (r: Result<Matrix, QuotaError>)
    requires DistinctKeys(strata) && DistinctKeys(groups) && Distinct(order)
    requires Regular(strata, groups, order) && Hopeless(strata, groups, order, total, q)
    ensures r == Err(NotConverged)
  {
    hide ColumnsMatch, Stuck, ValidInput, KeysInjective, Corrected, Convergent, Steady, BelowCeiling, AboveFloor,
         CellsNonNegative, RowsMatch, Ideal, DeficitsOf;
    ghost var last, path;
    r, last, path := ComputeStratifiedQuotas(strata, groups, order, total);
    assert last == q;
    assert ValidInput(strata, groups, order, total);
  }
}
