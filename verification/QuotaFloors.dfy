/**
 Inputs on which the quota solver returns a matrix with a cell below its floor, for every shape outside `Steady`: two
 small cores, padded with empty strata and groups, in which every possible swap takes a seat that the floor grants.
 */
module QuotaFloors {
  import opened Prelude
  import opened Apportionment
  import opened Allocation
  import opened QuotaMatrix
  import opened QuotaProgress
  import opened ColumnCorrection
  import opened Stratification
  import opened QuotaPadding
  import opened QuotaExamples

  // ---------------------------------------------------------------------------------
  // One seat to move, and every move breaks a floor
  // ---------------------------------------------------------------------------------

  /** Column `a` lacks one seat, `b` has one too many; row `t` can move it, and any row that can breaks a floor. */
  ghost predicate Forced(ideal: Ideals, p: Matrix, d: seq<int>, a: nat, b: nat, t: nat) {
    && |ideal| == |p| && Shape(ideal, |d|) && Shape(p, |d|) && a < |d| && b < |d| && a != b && t < |p|
    && d[a] == 1 && d[b] == -1 && (forall g :: 0 <= g < |d| && g != a && g != b ==> d[g] == 0)
    && p[t][b] > 0 && p[t][a] < Ceiling(ideal[t][a])
    && forall s :: 0 <= s < |p| ==> p[s][a] < Ceiling(ideal[s][a]) ==> p[s][b] <= ideal[s][b].Floor
  }

  lemma {:induction false} HigherColumn(p: Matrix, q: Matrix, g: nat) returns (s: nat)
    requires |p| == |q| && (forall k :: 0 <= k < |p| ==> g < |p[k]| && g < |q[k]|) && Col(p, g) < Col(q, g)
    ensures s < |p| && p[s][g] < q[s][g]
  {
    var n := |p| - 1;
    if p[n][g] < q[n][g] {
      s := n;
    } else {
      s := HigherColumn(p[..n], q[..n], g);
    }
  }

  /** A column that is nowhere lower and somewhere higher has the larger sum. */
  lemma {:induction false} LargerColumn(p: Matrix, q: Matrix, g: nat, s: nat)
    requires |p| == |q| && (forall k :: 0 <= k < |p| ==> g < |p[k]| && g < |q[k]|) && s < |p|
    requires forall k :: 0 <= k < |p| ==> p[k][g] <= q[k][g]
    ensures Col(p, g) <= Col(q, g) && (p[s][g] < q[s][g] ==> Col(p, g) < Col(q, g))
  {
    var n := |p| - 1;
    if n > 0 {
      LargerColumn(p[..n], q[..n], g, if s < n then s else 0);
    }
  }

  /** Rows with one sum that differ only in two places. */
  lemma TwoPlaces(u: seq<int>, v: seq<int>, a: nat, b: nat)
    requires |u| == |v| && a < |u| && b < |u| && a != b && Sum(u) == Sum(v)
    requires forall g :: 0 <= g < |u| && g != a && g != b ==> u[g] == v[g]
    ensures u[a] + u[b] == v[a] + v[b]
  {
    hide Sum;
    SumUpdate(u, a, v[a]);
    var w := u[a := v[a]];
    SumUpdate(w, b, v[b]);
    assert w[b := v[b]] == v;
  }

  lemma TwoDeficits(d: seq<int>, a: nat, b: nat)
    requires a < |d| && b < |d| && a != b && Sum(d) == 0 && forall g :: 0 <= g < |d| && g != a && g != b ==> d[g] == 0
    ensures d[a] + d[b] == 0
  {
    var zeros := seq(|d|, _ => 0);
    ZerosSum(zeros);
    TwoPlaces(d, zeros, a, b);
  }

  /** Drift keeps zero deficits zero and the cells of such columns as they were. */
  lemma DriftFacts(p: Matrix, q: Matrix, d0: seq<int>, d: seq<int>, a: nat, b: nat)
    requires Drifted(p, q, d0, d) && a < |d| && b < |d| && d0[a] == 1 && d0[b] == -1
    requires forall g :: 0 <= g < |d| && g != a && g != b ==> d0[g] == 0
    ensures d[a] >= 0 && d[b] <= 0 && forall g :: 0 <= g < |d| && g != a && g != b ==> d[g] == 0
    ensures forall s :: 0 <= s < |q| ==> p[s][a] <= q[s][a] && q[s][b] <= p[s][b]
    ensures forall s, g :: 0 <= s < |q| && 0 <= g < |d| && g != a && g != b ==> q[s][g] == p[s][g]
  {
    forall s, g | 0 <= s < |q| && 0 <= g < |d| && g != a && g != b ensures q[s][g] == p[s][g] {
      assert d0[g] == 0;
    }
  }

  /** While the seat is not moved, the row that can move it is as it was, so the loop cannot have ended. */
  lemma SeatMoves(ideal: Ideals, p: Matrix, last: Matrix, counts: seq<int>, a: nat, b: nat, t: nat)
    requires Shape(p, |counts|) && Shape(last, |counts|) && Forced(ideal, p, DeficitsOf(p, counts), a, b, t)
    requires Drifted(p, last, DeficitsOf(p, counts), DeficitsOf(last, counts))
    requires Stuck(ideal, last, DeficitsOf(last, counts)) && Sum(DeficitsOf(last, counts)) == 0
    ensures ColumnsMatch(counts, last)
  {
    hide Col, Sum, Stuck;
    var d0, d := DeficitsOf(p, counts), DeficitsOf(last, counts);
    DriftFacts(p, last, d0, d, a, b);
    TwoDeficits(d, a, b);
    if d[a] > 0 {
      LargerColumn(p, last, a, t);
      LargerColumn(last, p, b, t);
      assert last[t][a] == p[t][a] && last[t][b] == p[t][b];
      assert Feasible(ideal, last, d, Swap(a, b, t));
      StuckHasNone(ideal, last, d, Swap(a, b, t));
    }
  }

  lemma {:induction false} NothingLacking(d: seq<int>, g: nat)
    requires PositivePart(d) == 0 && g < |d|
    ensures d[g] <= 0
  {
    if g < |d| - 1 {
      NothingLacking(d[..|d| - 1], g);
    }
  }

  /**
   With one seat to move, one swap ends the correction: no swap of the same kind leaves a matrix closer to the ideals,
   and the swap keeps the floor of its donor if any possible one does.
   */
  lemma OneSeatMoved(ideal: Ideals, counts: seq<int>, path: seq<Matrix>, v: Swap)
    requires path != [] && Finishes(ideal, counts, path) && Shape(path[0], |counts|)
    requires PositivePart(DeficitsOf(path[0], counts)) == 1
    requires Feasible(ideal, path[0], DeficitsOf(path[0], counts), v)
    ensures |path| == 2 && |path[1]| == |path[0]| && Shape(path[1], |counts|)
    ensures forall g :: 0 <= g < |counts| ==> DeficitsOf(path[1], counts)[g] <= 0
    ensures var d := DeficitsOf(path[0], counts);
            exists w :: Feasible(ideal, path[0], d, w) && path[1] == Swapped(path[0], w)
                        && (KeepsFloor(ideal, path[0], d, v) ==> KeepsFloor(ideal, path[0], d, w))
                        && (KeepsFloor(ideal, path[0], d, v) == KeepsFloor(ideal, path[0], d, w) ==>
                              SquaredDeviation(ideal, path[1]) <= SquaredDeviation(ideal, Swapped(path[0], v)))
  {
    hide Col, PositivePart, SquaredDeviation;
    var q, d := path[0], DeficitsOf(path[0], counts);
    if |path| == 1 {
      StuckHasNone(ideal, q, d, v);
    }
    assert NextOn(ideal, counts, path[0], path[1]);
    var w :| LeastMove(ideal, q, d, w) && path[1] == Swapped(q, w);
    SwapEffect(ideal, q, d, counts, w);
    var d1 := SwapDeficits(d, w);
    SameDeficits(path[1], d1, counts);
    forall g: nat | g < |counts| ensures d1[g] <= 0 {
      NothingLacking(d1, g);
    }
    NoneLeft(ideal, path[1], d1);
    EndsWhenStuck(ideal, counts, path, 1);
  }

  lemma NoneLeft(ideal: Ideals, q: Matrix, d: seq<int>)
    requires forall g :: 0 <= g < |d| ==> d[g] <= 0
    ensures Stuck(ideal, q, d)
  {
  }

  lemma EndsWhenStuck(ideal: Ideals, counts: seq<int>, path: seq<Matrix>, k: nat)
    requires Descends(ideal, counts, path) && k < |path|
    requires Shape(path[k], |counts|) && Stuck(ideal, path[k], DeficitsOf(path[k], counts))
    ensures k == |path| - 1
  {
    hide NextOn, Stuck;
    if k < |path| - 1 {
      StuckIsLast(ideal, counts, path[k], path[k + 1]);
    }
  }

  /** Once it is moved, within the ceilings, some cell is below its floor. */
  lemma MoveBreaksFloor(ideal: Ideals, p: Matrix, last: Matrix, counts: seq<int>, sizes: seq<int>,
                        a: nat, b: nat, t: nat)
    requires Shape(p, |counts|) && Shape(last, |counts|) && Forced(ideal, p, DeficitsOf(p, counts), a, b, t)
    requires Drifted(p, last, DeficitsOf(p, counts), DeficitsOf(last, counts))
    requires RowsMatch(sizes, p) && RowsMatch(sizes, last)
    requires BelowCeiling(ideal, last, |counts|) && ColumnsMatch(counts, last)
    ensures !AboveFloor(ideal, last, |counts|)
  {
    hide Col, Sum;
    DriftFacts(p, last, DeficitsOf(p, counts), DeficitsOf(last, counts), a, b);
    var s := HigherColumn(p, last, a);
    TwoPlaces(p[s], last[s], a, b);
    assert last[s][a] <= Ceiling(ideal[s][a]);
  }

  // ---------------------------------------------------------------------------------
  // Padding
  // ---------------------------------------------------------------------------------

  lemma PaddedForced(sizes: seq<int>, counts: seq<int>, total: int, m: Matrix, rows: nat, columns: nat,
                     a: nat, b: nat, t: nat)
    requires total > 0 && |m| == |sizes| <= rows && |counts| <= columns && Shape(m, |counts|)
    requires Forced(IdealMatrix(sizes, counts, total), m, DeficitsOf(m, counts), a, b, t)
    ensures Forced(IdealMatrix(Pad(sizes, rows), Pad(counts, columns), total), PadMatrix(m, rows, columns),
                   DeficitsOf(PadMatrix(m, rows, columns), Pad(counts, columns)), a, b, t)
  {
    hide Share, IdealMatrix, PadMatrix, DeficitsOf, Col;
    var core: Ideals := IdealMatrix(sizes, counts, total);
    var ideal: Ideals := IdealMatrix(Pad(sizes, rows), Pad(counts, columns), total);
    var p := PadMatrix(m, rows, columns);
    PaddedDeficits(counts, m, rows, columns);
    forall s: nat | s < rows
      ensures p[s][a] == (if s < |m| then m[s][a] else 0) && p[s][b] == (if s < |m| then m[s][b] else 0)
      ensures ideal[s][a] == (if s < |m| then core[s][a] else 0.0)
      ensures ideal[s][b] == (if s < |m| then core[s][b] else 0.0)
    {
      PaddedCell(m, |counts|, rows, columns, s, a);
      PaddedCell(m, |counts|, rows, columns, s, b);
      PaddedIdeal(sizes, counts, total, rows, columns, s, a);
      PaddedIdeal(sizes, counts, total, rows, columns, s, b);
    }
  }

  lemma PaddedBalance(sizes: seq<int>, counts: seq<int>, total: int, rows: nat, columns: nat, last: Matrix)
    requires Core(sizes, counts, total) && |sizes| <= rows && |counts| <= columns && Shape(last, columns)
    requires RowsMatch(Pad(sizes, rows), last)
    ensures Sum(DeficitsOf(last, Pad(counts, columns))) == 0
  {
    hide Sum, Col, DeficitsOf;
    PadSum(sizes, rows);
    PadSum(counts, columns);
    DeficitsCancel(Pad(sizes, rows), Pad(counts, columns), total, last);
  }

  /** A core in which the only swaps break floors makes the solver return a matrix below a floor. */
  lemma BelowFloor(sizes: seq<int>, counts: seq<int>, total: int, m: Matrix, rows: nat, columns: nat,
                   a: nat, b: nat, t: nat, last: Matrix)
    requires Case(sizes, counts, total, m) && |sizes| <= rows && |counts| <= columns && Shape(m, |counts|)
    requires Forced(IdealMatrix(sizes, counts, total), m, DeficitsOf(m, counts), a, b, t)
    requires var strata, groups, order := Strata(sizes, rows), Strata(counts, columns), Names(columns);
             && ValidInput(strata, groups, order, total) && Shape(last, columns)
             && Corrected(groups, order, PadMatrix(m, rows, columns), last)
             && RowsMatch(Counts(strata), last) && BelowCeiling(Ideal(strata, groups, order, total), last, columns)
             && Stuck(Ideal(strata, groups, order, total), last, DeficitsOf(last, ColumnCounts(groups, order)))
    ensures ColumnsMatch(ColumnCounts(Strata(counts, columns), Names(columns)), last)
    ensures !AboveFloor(Ideal(Strata(sizes, rows), Strata(counts, columns), Names(columns), total), last, columns)
  {
    hide Sum, Col, IdealMatrix, PadMatrix, DeficitsOf, Forced, Drifted, Stuck, BelowCeiling, AboveFloor, ColumnsMatch,
         RowsMatch, Strata, Names, ValidInput, Regular, Pad, RowsApportioned, Tight;
    CaseCore(sizes, counts, total, m);
    CaseFacts(sizes, counts, total, m);
    PaddedInput(sizes, counts, total, rows, columns);
    PaddedRows(sizes, m, |counts|, rows, columns);
    PaddedForced(sizes, counts, total, m, rows, columns, a, b, t);
    PaddedBalance(sizes, counts, total, rows, columns, last);
    var ideal := IdealMatrix(Pad(sizes, rows), Pad(counts, columns), total);
    SeatMoves(ideal, PadMatrix(m, rows, columns), last, Pad(counts, columns), a, b, t);
    MoveBreaksFloor(ideal, PadMatrix(m, rows, columns), last, Pad(counts, columns), Pad(sizes, rows), a, b, t);
  }

  // ---------------------------------------------------------------------------------
  // The two cores
  // ---------------------------------------------------------------------------------

  const FIVE := [2, 2, 2, 3, 3]

  lemma FiveForced()
    ensures Shape(ThreeGroupMatrix(FIVE), 3)
    ensures Forced(IdealMatrix(FIVE, [2, 4, 6], 12), ThreeGroupMatrix(FIVE),
                   DeficitsOf(ThreeGroupMatrix(FIVE), [2, 4, 6]), 2, 1, 3)
  {
    hide Sum, Col, IdealRow, RoundsRow, Apportioned;
    var m, ideal := ThreeGroupMatrix(FIVE), IdealMatrix(FIVE, [2, 4, 6], 12);
    forall g: nat | g < 3 ensures Col(m, g) == [2, 5, 5][g] {
      ColumnSum(m, g);
      Sum5(Column(m, g));
    }
    forall s: nat | s < 5 ensures ideal[s] == ThreeGroupIdeal(FIVE[s]) && (FIVE[s] == 2 || FIVE[s] == 3) {
      ThreeGroupRow(FIVE[s]);
    }
  }

  /** The ideals of a stratum of size 2 or 4 for counts 2, 2, 3 and 5, and its apportionment. */
  lemma UnevenRow(size: int)
    requires size == 2 || size == 4
    ensures IdealRow(size, [2, 2, 3, 5], 12) == UnevenIdeal(size)
    ensures RoundsRow(size, [2, 2, 3, 5], 12, FourGroupStart(size))
    ensures Apportioned(IdealRow(size, [2, 2, 3, 5], 12), FourGroupStart(size))
  {
    var r := IdealRow(size, [2, 2, 3, 5], 12);
    var x := size as real;
    assert |r| == 4 && r[0] == Share(x, 2.0, 12.0) && r[1] == Share(x, 2.0, 12.0);
    assert r[2] == Share(x, 3.0, 12.0) && r[3] == Share(x, 5.0, 12.0);
    assert r == UnevenIdeal(size);
    Sum4(FourGroupStart(size));
  }

  function UnevenIdeal(size: int): seq<real> {
    if size == 2 then [1.0 / 3.0, 1.0 / 3.0, 0.5, 5.0 / 6.0] else [2.0 / 3.0, 2.0 / 3.0, 1.0, 5.0 / 3.0]
  }

  lemma UnevenCase()
    ensures Case(FOUR, [2, 2, 3, 5], 12, FourGroupMatrix(FOUR))
  {
    hide Sum, RoundsRow, Apportioned, IdealRow, FourGroupStart;
    Sum4([2, 2, 3, 5]);
    Sum4(FOUR);
    forall s: nat | s < 4
      ensures RoundsRow(FOUR[s], [2, 2, 3, 5], 12, FourGroupStart(FOUR[s]))
              && Apportioned(IdealRow(FOUR[s], [2, 2, 3, 5], 12), FourGroupStart(FOUR[s]))
    {
      UnevenRow(FOUR[s]);
    }
  }

  lemma UnevenForced()
    ensures Shape(FourGroupMatrix(FOUR), 4)
    ensures Forced(IdealMatrix(FOUR, [2, 2, 3, 5], 12), FourGroupMatrix(FOUR),
                   DeficitsOf(FourGroupMatrix(FOUR), [2, 2, 3, 5]), 3, 2, 2)
  {
    hide Sum, Col, IdealRow, RoundsRow, Apportioned;
    var m, ideal := FourGroupMatrix(FOUR), IdealMatrix(FOUR, [2, 2, 3, 5], 12);
    forall g: nat | g < 4 ensures Col(m, g) == [2, 2, 4, 4][g] {
      ColumnSum(m, g);
      Sum4(Column(m, g));
    }
    forall s: nat | s < 4 ensures ideal[s] == UnevenIdeal(FOUR[s]) && (FOUR[s] == 2 || FOUR[s] == 4) {
      UnevenRow(FOUR[s]);
    }
  }

  /** The solver on a padded core in which the only swaps break floors. */
  method SolveForced(sizes: seq<int>, counts: seq<int>, total: int, ghost m: Matrix, rows: nat, columns: nat,
                     ghost a: nat, ghost b: nat, ghost t: nat)
    returns (strata: seq<Entry>, groups: seq<Entry>, order: seq<string>, r: Result<Matrix, QuotaError>)
    requires Case(sizes, counts, total, m) && |sizes| <= rows && |counts| <= columns && Shape(m, |counts|)
    requires Forced(IdealMatrix(sizes, counts, total), m, DeficitsOf(m, counts), a, b, t)
    ensures Shaped(strata, groups, order, total, rows, columns)
    ensures r.Ok? && !AboveFloor(Ideal(strata, groups, order, total), r.value, columns)
  {
    hide Stuck, IdealMatrix, Case, Names, Strata, PadMatrix, DeficitsOf, ValidInput, Sum, Covers, RowPhase, Ideal,
         AboveFloor, Distinct, DistinctKeys, KeysInjective, BelowCeiling, ColumnsMatch, RowsMatch, Forced, Columns,
         Steady, Convergent, CellsNonNegative;
    strata, groups, order := Strata(sizes, rows), Strata(counts, columns), Names(columns);
    PaddedShape(sizes, counts, total, m, rows, columns);
    PaddedCase(sizes, counts, total, m, rows, columns);
    ghost var last, path;
    r, last, path := ComputeStratifiedQuotas(strata, groups, order, total);
    BelowFloor(sizes, counts, total, m, rows, columns, a, b, t, last);
  }

  /**
   For every shape outside `Steady` the solver returns, on some accepted input, a matrix with a cell below its floor.
   With the solver's own promise this makes that condition exact.
   */
  method FloorBreakingInput(rows: nat, columns: nat)
    returns (strata: seq<Entry>, groups: seq<Entry>, order: seq<string>, total: int, r: Result<Matrix, QuotaError>)
    requires !Steady(rows, columns)
    ensures Shaped(strata, groups, order, total, rows, columns)
    ensures r.Ok? && !AboveFloor(Ideal(strata, groups, order, total), r.value, columns)
  {
    hide Case, Forced, IdealMatrix, DeficitsOf, Ideal, AboveFloor, Shaped, Sum;
    total := 12;
    if columns == 3 {
      Sum5(FIVE);
      ThreeGroupCase(FIVE);
      FiveForced();
      strata, groups, order, r := SolveForced(FIVE, [2, 4, 6], total, ThreeGroupMatrix(FIVE), rows, columns, 2, 1, 3);
    } else {
      UnevenCase();
      UnevenForced();
      strata, groups, order, r := SolveForced(FOUR, [2, 2, 3, 5], total, FourGroupMatrix(FOUR), rows, columns, 3, 2, 2);
    }
  }
}
