/**
 The column-correction loop of the stratified quota solver (packages/abtest/src/stratification.ts): seats move
 within a row from a column with a surplus to one with a deficit until every column has its exact count.
 */
module QuotaMatrix {
  import opened Prelude
  import opened Apportionment

  type Matrix = seq<seq<int>>
  type Ideals = seq<seq<real>>

  predicate Shape<T>(m: seq<seq<T>>, columns: nat) {
    forall s :: 0 <= s < |m| ==> |m[s]| == columns
  }

  /** The sum of column `g`. */
  function Col(q: Matrix, g: nat): int
    requires forall s :: 0 <= s < |q| ==> g < |q[s]|
  {
    if q == [] then 0 else Col(q[..|q| - 1], g) + q[|q| - 1][g]
  }

  function ColR(ideal: Ideals, g: nat): real
    requires forall s :: 0 <= s < |ideal| ==> g < |ideal[s]|
  {
    if ideal == [] then 0.0 else ColR(ideal[..|ideal| - 1], g) + ideal[|ideal| - 1][g]
  }

  lemma {:induction false} ColUpdate(q: Matrix, s: nat, row: seq<int>, g: nat)
    requires s < |q| && |row| == |q[s]| && forall k :: 0 <= k < |q| ==> g < |q[k]|
    ensures Col(q[s := row], g) == Col(q, g) - q[s][g] + row[g]
  {
    var n := |q| - 1;
    if s < n {
      assert q[s := row][..n] == q[..n][s := row];
      ColUpdate(q[..n], s, row, g);
    } else {
      assert q[s := row][..n] == q[..n];
    }
  }

  /** Seats the columns still lack. */
  function PositivePart(d: seq<int>): nat {
    if d == [] then 0 else PositivePart(d[..|d| - 1]) + if d[|d| - 1] > 0 then d[|d| - 1] else 0
  }

  lemma {:induction false} PositiveUpdate(d: seq<int>, g: nat, x: int)
    requires g < |d|
    ensures PositivePart(d[g := x]) == PositivePart(d) - (if d[g] > 0 then d[g] else 0) + if x > 0 then x else 0
  {
    var n := |d| - 1;
    if g < n {
      assert d[g := x][..n] == d[..n][g := x];
      PositiveUpdate(d[..n], g, x);
    } else {
      assert d[g := x][..n] == d[..n];
    }
  }

  lemma {:induction false} PositiveBound(d: seq<int>, bound: nat)
    requires forall g :: 0 <= g < |d| ==> d[g] <= bound
    ensures PositivePart(d) <= bound * |d|
  {
    if d != [] {
      PositiveBound(d[..|d| - 1], bound);
      assert bound * |d| == bound * (|d| - 1) + bound;
    }
  }

  /** No deficit anywhere and a zero total leave nothing anywhere. */
  lemma SettledIsZero(d: seq<int>)
    requires Sum(d) == 0
    requires (forall g :: 0 <= g < |d| ==> d[g] <= 0) || (forall g :: 0 <= g < |d| ==> d[g] >= 0)
    ensures forall g :: 0 <= g < |d| ==> d[g] == 0
  {
    var zeros := seq(|d|, _ => 0);
    ZerosSum(zeros);
    forall g | 0 <= g < |d| ensures d[g] == 0 {
      if d[g] < 0 {
        SumLess(zeros, d, g);
      } else if d[g] > 0 {
        SumLess(d, zeros, g);
      }
    }
  }

  // ---------------------------------------------------------------------------------
  // Swaps
  // ---------------------------------------------------------------------------------

  datatype Swap = Swap(deficit: nat, surplus: nat, stratum: nat)

  predicate InRange(ideal: Ideals, q: Matrix, d: seq<int>, w: Swap) {
    && |ideal| == |q| && Shape(ideal, |d|) && Shape(q, |d|)
    && w.deficit < |d| && w.surplus < |d| && w.stratum < |q|
  }

  /** A donor with a seat in a surplus column and a receiver below its ceiling in a deficit column, in one row. */
  predicate Feasible(ideal: Ideals, q: Matrix, d: seq<int>, w: Swap) {
    && InRange(ideal, q, d, w)
    && d[w.deficit] > 0 && d[w.surplus] < 0
    && q[w.stratum][w.surplus] > 0
    && q[w.stratum][w.deficit] < Ceiling(ideal[w.stratum][w.deficit])
  }

  /** The donor also stays at or above its floor. */
  predicate KeepsFloor(ideal: Ideals, q: Matrix, d: seq<int>, w: Swap)
    requires InRange(ideal, q, d, w)
  {
    q[w.stratum][w.surplus] > ideal[w.stratum][w.surplus].Floor
  }

  function Score(ideal: Ideals, q: Matrix, d: seq<int>, w: Swap): real
    requires InRange(ideal, q, d, w)
  {
    (q[w.stratum][w.surplus] as real - ideal[w.stratum][w.surplus])
    - (q[w.stratum][w.deficit] as real - ideal[w.stratum][w.deficit])
  }

  /** `a` is at least as good as `b`: bounded swaps first, then the larger score. */
  predicate AtLeastAsGood(ideal: Ideals, q: Matrix, d: seq<int>, a: Swap, b: Swap)
    requires InRange(ideal, q, d, a) && InRange(ideal, q, d, b)
  {
    || (KeepsFloor(ideal, q, d, a) && !KeepsFloor(ideal, q, d, b))
    || (KeepsFloor(ideal, q, d, a) == KeepsFloor(ideal, q, d, b) && Score(ideal, q, d, a) >= Score(ideal, q, d, b))
  }

  /** `a` comes no later than `b` in the order of the scan. */
  predicate NoLater(a: Swap, b: Swap) {
    || a.deficit < b.deficit
    || (a.deficit == b.deficit && (a.surplus < b.surplus || (a.surplus == b.surplus && a.stratum <= b.stratum)))
  }

  /** `a` is at least as good as `b`, and comes first if they are equally good. */
  predicate Preferred(ideal: Ideals, q: Matrix, d: seq<int>, a: Swap, b: Swap)
    requires InRange(ideal, q, d, a) && InRange(ideal, q, d, b)
  {
    AtLeastAsGood(ideal, q, d, a, b) && (AtLeastAsGood(ideal, q, d, b, a) ==> NoLater(a, b))
  }

  /** `best` is the first best feasible swap among those `seen`. */
  ghost predicate BestOf(ideal: Ideals, q: Matrix, d: seq<int>, best: Option<Swap>, seen: Swap -> bool) {
    && (best.Some? ==> seen(best.value) && Feasible(ideal, q, d, best.value))
    && forall w :: seen(w) && Feasible(ideal, q, d, w) ==> best.Some? && Preferred(ideal, q, d, best.value, w)
  }

  /** Considers one triple, as the innermost loop body does. */
  method Consider(ideal: Ideals, q: Matrix, d: seq<int>, best: Option<Swap>, w: Swap) returns (r: Option<Swap>)
    requires best.Some? ==> Feasible(ideal, q, d, best.value)
    requires InRange(ideal, q, d, w) && d[w.deficit] > 0 && d[w.surplus] < 0
    ensures r == if Feasible(ideal, q, d, w) && (best.None? || !AtLeastAsGood(ideal, q, d, best.value, w))
                 then Some(w) else best
  {
    r := best;
    if q[w.stratum][w.surplus] <= 0 || q[w.stratum][w.deficit] >= Ceiling(ideal[w.stratum][w.deficit]) {
      return;
    }
    if best.None? {
      r := Some(w);
      return;
    }
    var bounded, bestBounded := KeepsFloor(ideal, q, d, w), KeepsFloor(ideal, q, d, best.value);
    if (bounded && !bestBounded)
       || (bounded == bestBounded && Score(ideal, q, d, w) > Score(ideal, q, d, best.value)) {
      r := Some(w);
    }
  }

  /** Scans all (deficit, surplus, row) triples for the globally best swap. */
  method FindBestSwap(ideal: Ideals, q: Matrix, d: seq<int>) returns (best: Option<Swap>)
    requires |ideal| == |q| && Shape(ideal, |d|) && Shape(q, |d|)
    ensures BestOf(ideal, q, d, best, w => true)
  {
    hide Feasible, AtLeastAsGood, Preferred;
    best := None;
    for a := 0 to |d|
      invariant BestOf(ideal, q, d, best, (w: Swap) => w.deficit < a)
    {
      if d[a] <= 0 {
        NothingNew(ideal, q, d, best, a);
        continue;
      }
      for b := 0 to |d|
        invariant BestOf(ideal, q, d, best, (w: Swap) => w.deficit < a || (w.deficit == a && w.surplus < b))
      {
        if d[b] >= 0 {
          NothingNewHere(ideal, q, d, best, a, b);
          continue;
        }
        for s := 0 to |q|
          invariant BestOf(ideal, q, d, best, (w: Swap) =>
                      w.deficit < a || (w.deficit == a && (w.surplus < b || (w.surplus == b && w.stratum < s))))
        {
          var next := Consider(ideal, q, d, best, Swap(a, b, s));
          BestGrows(ideal, q, d, best, next, a, b, s);
          best := next;
        }
        RowsDone(ideal, q, d, best, a, b);
      }
      ColumnsDone(ideal, q, d, best, a);
    }
    AllDone(ideal, q, d, best);
  }

  lemma NothingNew(ideal: Ideals, q: Matrix, d: seq<int>, best: Option<Swap>, a: nat)
    requires BestOf(ideal, q, d, best, (w: Swap) => w.deficit < a) && a < |d| && d[a] <= 0
    ensures BestOf(ideal, q, d, best, (w: Swap) => w.deficit < a + 1)
  {
  }

  lemma NothingNewHere(ideal: Ideals, q: Matrix, d: seq<int>, best: Option<Swap>, a: nat, b: nat)
    requires BestOf(ideal, q, d, best, (w: Swap) => w.deficit < a || (w.deficit == a && w.surplus < b))
    requires b < |d| && d[b] >= 0
    ensures BestOf(ideal, q, d, best, (w: Swap) => w.deficit < a || (w.deficit == a && w.surplus < b + 1))
  {
  }

  lemma RowsDone(ideal: Ideals, q: Matrix, d: seq<int>, best: Option<Swap>, a: nat, b: nat)
    requires BestOf(ideal, q, d, best, (w: Swap) =>
               w.deficit < a || (w.deficit == a && (w.surplus < b || (w.surplus == b && w.stratum < |q|))))
    ensures BestOf(ideal, q, d, best, (w: Swap) => w.deficit < a || (w.deficit == a && w.surplus < b + 1))
  {
  }

  lemma ColumnsDone(ideal: Ideals, q: Matrix, d: seq<int>, best: Option<Swap>, a: nat)
    requires BestOf(ideal, q, d, best, (w: Swap) => w.deficit < a || (w.deficit == a && w.surplus < |d|))
    ensures BestOf(ideal, q, d, best, (w: Swap) => w.deficit < a + 1)
  {
  }

  lemma AllDone(ideal: Ideals, q: Matrix, d: seq<int>, best: Option<Swap>)
    requires BestOf(ideal, q, d, best, (w: Swap) => w.deficit < |d|)
    ensures BestOf(ideal, q, d, best, w => true)
  {
  }

  lemma BestGrows(ideal: Ideals, q: Matrix, d: seq<int>, best: Option<Swap>, next: Option<Swap>, a: nat, b: nat, s: nat)
    requires BestOf(ideal, q, d, best, (w: Swap) =>
               w.deficit < a || (w.deficit == a && (w.surplus < b || (w.surplus == b && w.stratum < s))))
    requires InRange(ideal, q, d, Swap(a, b, s))
    requires next == if Feasible(ideal, q, d, Swap(a, b, s))
                        && (best.None? || !AtLeastAsGood(ideal, q, d, best.value, Swap(a, b, s)))
                     then Some(Swap(a, b, s)) else best
    ensures BestOf(ideal, q, d, next, (w: Swap) =>
              w.deficit < a || (w.deficit == a && (w.surplus < b || (w.surplus == b && w.stratum < s + 1))))
  {
    hide AtLeastAsGood;
    var new' := Swap(a, b, s);
    forall w: Swap | (w.deficit < a || (w.deficit == a && (w.surplus < b || (w.surplus == b && w.stratum < s + 1))))
                     && Feasible(ideal, q, d, w)
      ensures next.Some? && Preferred(ideal, q, d, next.value, w)
    {
      FeasibleInRange(ideal, q, d, w);
      if w == new' {
        SelfGood(ideal, q, d, w);
      } else if next == Some(new') {
        StrictlyBetter(ideal, q, d, new', best.value, w);
      }
    }
  }

  lemma FeasibleInRange(ideal: Ideals, q: Matrix, d: seq<int>, w: Swap)
    requires Feasible(ideal, q, d, w)
    ensures InRange(ideal, q, d, w) && d[w.deficit] > 0 && d[w.surplus] < 0 && w.deficit != w.surplus
  {
  }

  lemma SelfGood(ideal: Ideals, q: Matrix, d: seq<int>, w: Swap)
    requires InRange(ideal, q, d, w)
    ensures AtLeastAsGood(ideal, q, d, w, w)
  {
  }

  /** What beats the best so far beats everything the best so far was preferred to. */
  lemma StrictlyBetter(ideal: Ideals, q: Matrix, d: seq<int>, a: Swap, b: Swap, c: Swap)
    requires InRange(ideal, q, d, a) && InRange(ideal, q, d, b) && InRange(ideal, q, d, c)
    requires !AtLeastAsGood(ideal, q, d, b, a) && AtLeastAsGood(ideal, q, d, b, c)
    ensures AtLeastAsGood(ideal, q, d, a, c) && !AtLeastAsGood(ideal, q, d, c, a)
  {
  }

  /** No swap is possible any more. */
  ghost predicate Stuck(ideal: Ideals, q: Matrix, d: seq<int>) {
    forall w :: !Feasible(ideal, q, d, w)
  }

  // ---------------------------------------------------------------------------------
  // One swap
  // ---------------------------------------------------------------------------------

  function SwapRow(row: seq<int>, w: Swap): (r: seq<int>)
    requires w.deficit < |row| && w.surplus < |row|
    ensures |r| == |row|
  {
    var more := row[w.deficit := row[w.deficit] + 1];
    more[w.surplus := more[w.surplus] - 1]
  }

  function SwapDeficits(d: seq<int>, w: Swap): (r: seq<int>)
    requires w.deficit < |d| && w.surplus < |d|
    ensures |r| == |d|
  {
    var less := d[w.deficit := d[w.deficit] - 1];
    less[w.surplus := less[w.surplus] + 1]
  }

  /** `d` is what each column lacks. */
  predicate Deficits(q: Matrix, d: seq<int>, counts: seq<int>) {
    |d| == |counts| && Shape(q, |d|) && forall g :: 0 <= g < |d| ==> d[g] == counts[g] - Col(q, g)
  }

  function DeficitsOf(q: Matrix, counts: seq<int>): (d: seq<int>)
    requires Shape(q, |counts|)
    ensures Deficits(q, d, counts)
  {
    seq(|counts|, g requires 0 <= g < |counts| => counts[g] - Col(q, g))
  }

  /** The swapped row keeps its sum and changes in two columns only. */
  lemma SwapRowEffect(row: seq<int>, w: Swap)
    requires w.deficit < |row| && w.surplus < |row| && w.deficit != w.surplus
    ensures Sum(SwapRow(row, w)) == Sum(row)
    ensures forall g :: 0 <= g < |row| ==>
              SwapRow(row, w)[g] == row[g] + if g == w.deficit then 1 else if g == w.surplus then -1 else 0
  {
    hide Sum;
    var more := row[w.deficit := row[w.deficit] + 1];
    SumUpdate(row, w.deficit, row[w.deficit] + 1);
    SumUpdate(more, w.surplus, more[w.surplus] - 1);
  }

  /** Deficits keep their sum and lose one seat lacking. */
  lemma SwapDeficitsEffect(d: seq<int>, w: Swap)
    requires w.deficit < |d| && w.surplus < |d| && d[w.deficit] > 0 && d[w.surplus] < 0
    ensures Sum(SwapDeficits(d, w)) == Sum(d) && PositivePart(SwapDeficits(d, w)) == PositivePart(d) - 1
    ensures forall g :: 0 <= g < |d| ==>
              SwapDeficits(d, w)[g] == d[g] - if g == w.deficit then 1 else if g == w.surplus then -1 else 0
  {
    hide Sum, PositivePart;
    var less := d[w.deficit := d[w.deficit] - 1];
    SumUpdate(d, w.deficit, d[w.deficit] - 1);
    SumUpdate(less, w.surplus, less[w.surplus] + 1);
    PositiveUpdate(d, w.deficit, d[w.deficit] - 1);
    PositiveUpdate(less, w.surplus, less[w.surplus] + 1);
  }

  /** A swap keeps row sums and the total, and lowers the seats lacking by exactly one. */
  lemma SwapEffect(ideal: Ideals, q: Matrix, d: seq<int>, counts: seq<int>, w: Swap)
    requires Feasible(ideal, q, d, w) && Deficits(q, d, counts)
    ensures var q' := q[w.stratum := SwapRow(q[w.stratum], w)];
            var d' := SwapDeficits(d, w);
            && Deficits(q', d', counts)
            && Sum(d') == Sum(d)
            && PositivePart(d') == PositivePart(d) - 1
            && (forall s :: 0 <= s < |q| ==> Sum(q'[s]) == Sum(q[s]))
  {
    hide Sum, PositivePart, SwapRow, SwapDeficits, Col;
    var row := q[w.stratum];
    SwapRowEffect(row, w);
    SwapDeficitsEffect(d, w);
    forall g | 0 <= g < |d| ensures SwapDeficits(d, w)[g] == counts[g] - Col(q[w.stratum := SwapRow(row, w)], g) {
      ColUpdate(q, w.stratum, SwapRow(row, w), g);
    }
  }

  /** Every cell is between zero and its ideal rounded up. */
  predicate BelowCeiling(ideal: Ideals, q: Matrix, columns: nat) {
    && |ideal| == |q| && Shape(ideal, columns) && Shape(q, columns)
    && forall s, g :: 0 <= s < |q| && 0 <= g < columns ==> 0 <= q[s][g] <= Ceiling(ideal[s][g])
  }

  predicate AboveFloor(ideal: Ideals, q: Matrix, columns: nat) {
    && |ideal| == |q| && Shape(ideal, columns) && Shape(q, columns)
    && forall s, g :: 0 <= s < |q| && 0 <= g < columns ==> ideal[s][g].Floor <= q[s][g]
  }

  /** Each row is the apportionment of its ideals. */
  predicate RowsApportioned(ideal: Ideals, q: Matrix) {
    |q| == |ideal| && forall s :: 0 <= s < |q| ==> Apportioned(ideal[s], q[s])
  }

  predicate CellsNonNegative(q: Matrix) {
    forall s, g :: 0 <= s < |q| && 0 <= g < |q[s]| ==> q[s][g] >= 0
  }

  lemma SwapBounds(ideal: Ideals, q: Matrix, d: seq<int>, w: Swap)
    requires Feasible(ideal, q, d, w)
    ensures var q' := q[w.stratum := SwapRow(q[w.stratum], w)];
            && (CellsNonNegative(q) ==> CellsNonNegative(q'))
            && (BelowCeiling(ideal, q, |d|) ==> BelowCeiling(ideal, q', |d|))
            && (AboveFloor(ideal, q, |d|) && KeepsFloor(ideal, q, d, w) ==> AboveFloor(ideal, q', |d|))
  {
  }

  // ---------------------------------------------------------------------------------
  // What the score measures
  // ---------------------------------------------------------------------------------

  function Square(x: real): real {
    x * x
  }

  function RowDeviation(ideals: seq<real>, row: seq<int>): real
    requires |ideals| == |row|
  {
    if row == [] then 0.0
    else
      var n := |row| - 1;
      RowDeviation(ideals[..n], row[..n]) + Square(row[n] as real - ideals[n])
  }

  /** The squared distance of a matrix from its ideals, over all cells. */
  function SquaredDeviation(ideal: Ideals, q: Matrix): real
    requires |ideal| == |q| && forall s :: 0 <= s < |q| ==> |ideal[s]| == |q[s]|
  {
    if q == [] then 0.0
    else
      var n := |q| - 1;
      SquaredDeviation(ideal[..n], q[..n]) + RowDeviation(ideal[n], q[n])
  }

  lemma {:induction false} RowDeviationUpdate(ideals: seq<real>, row: seq<int>, g: nat, x: int)
    requires |ideals| == |row| && g < |row|
    ensures RowDeviation(ideals, row[g := x])
         == RowDeviation(ideals, row) - Square(row[g] as real - ideals[g]) + Square(x as real - ideals[g])
  {
    hide Square;
    var n := |row| - 1;
    if g < n {
      RowDeviationUpdate(ideals[..n], row[..n], g, x);
      assert row[g := x][..n] == row[..n][g := x];
    } else {
      assert row[g := x][..n] == row[..n];
    }
  }

  lemma {:induction false} DeviationUpdate(ideal: Ideals, q: Matrix, s: nat, row: seq<int>)
    requires |ideal| == |q| && (forall s :: 0 <= s < |q| ==> |ideal[s]| == |q[s]|) && s < |q| && |row| == |q[s]|
    ensures SquaredDeviation(ideal, q[s := row])
         == SquaredDeviation(ideal, q) - RowDeviation(ideal[s], q[s]) + RowDeviation(ideal[s], row)
  {
    hide RowDeviation;
    var n := |q| - 1;
    if s < n {
      DeviationUpdate(ideal[..n], q[..n], s, row);
      assert q[s := row][..n] == q[..n][s := row];
    } else {
      assert q[s := row][..n] == q[..n];
    }
  }

  /** The matrix after a swap. */
  function Swapped(q: Matrix, w: Swap): (r: Matrix)
    requires w.stratum < |q| && w.deficit < |q[w.stratum]| && w.surplus < |q[w.stratum]|
    ensures |r| == |q| && forall s :: 0 <= s < |q| ==> |r[s]| == |q[s]|
  {
    q[w.stratum := SwapRow(q[w.stratum], w)]
  }

  lemma SquareSteps(x: real, y: real)
    ensures Square(x - 1.0) == Square(x) - 2.0 * x + 1.0 && Square(y + 1.0) == Square(y) + 2.0 * y + 1.0
  {
  }

  /** A swap changes the squared distance by two less twice its score. */
  lemma ScoreIsGain(ideal: Ideals, q: Matrix, d: seq<int>, w: Swap)
    requires InRange(ideal, q, d, w) && w.deficit != w.surplus
    ensures SquaredDeviation(ideal, Swapped(q, w)) == SquaredDeviation(ideal, q) + 2.0 - 2.0 * Score(ideal, q, d, w)
  {
    hide RowDeviation, SquaredDeviation, Square;
    var row, r := q[w.stratum], ideal[w.stratum];
    var more := row[w.deficit := row[w.deficit] + 1];
    RowDeviationUpdate(r, row, w.deficit, row[w.deficit] + 1);
    RowDeviationUpdate(r, more, w.surplus, more[w.surplus] - 1);
    DeviationUpdate(ideal, q, w.stratum, SwapRow(row, w));
    SquareSteps(row[w.surplus] as real - r[w.surplus], row[w.deficit] as real - r[w.deficit]);
  }

  /**
   The swap that a step of the correction has to make: one that keeps the donor's floor if any feasible one does, and
   of that kind the one that leaves the matrix closest to its ideals, the first one if there are several.
   */
  ghost predicate LeastMove(ideal: Ideals, q: Matrix, d: seq<int>, w: Swap) {
    && Feasible(ideal, q, d, w)
    && forall v :: Feasible(ideal, q, d, v) ==>
         && (KeepsFloor(ideal, q, d, v) ==> KeepsFloor(ideal, q, d, w))
         && (KeepsFloor(ideal, q, d, v) == KeepsFloor(ideal, q, d, w) ==>
               && SquaredDeviation(ideal, Swapped(q, w)) <= SquaredDeviation(ideal, Swapped(q, v))
               && (SquaredDeviation(ideal, Swapped(q, w)) == SquaredDeviation(ideal, Swapped(q, v)) ==> NoLater(w, v)))
  }

  /** The scan finds exactly that swap. */
  lemma BestIsLeast(ideal: Ideals, q: Matrix, d: seq<int>, w: Swap)
    ensures BestOf(ideal, q, d, Some(w), x => true) <==> LeastMove(ideal, q, d, w)
  {
    hide SquaredDeviation, Score, Swapped;
    forall v | Feasible(ideal, q, d, v)
      ensures InRange(ideal, q, d, v)
      ensures SquaredDeviation(ideal, Swapped(q, v)) == SquaredDeviation(ideal, q) + 2.0 - 2.0 * Score(ideal, q, d, v)
    {
      FeasibleInRange(ideal, q, d, v);
      ScoreIsGain(ideal, q, d, v);
    }
  }

  lemma LeastUnique(ideal: Ideals, q: Matrix, d: seq<int>, v: Swap, w: Swap)
    requires LeastMove(ideal, q, d, v) && LeastMove(ideal, q, d, w)
    ensures v == w
  {
    hide SquaredDeviation, Swapped;
  }

  /** Each matrix comes from the one before it by the least move. */
  ghost predicate Descends(ideal: Ideals, counts: seq<int>, path: seq<Matrix>) {
    forall k :: 0 <= k < |path| - 1 ==> NextOn(ideal, counts, path[k], path[k + 1])
  }

  ghost predicate NextOn(ideal: Ideals, counts: seq<int>, q: Matrix, q': Matrix) {
    Shape(q, |counts|) && exists w :: LeastMove(ideal, q, DeficitsOf(q, counts), w) && q' == Swapped(q, w)
  }

  lemma NextUnique(ideal: Ideals, counts: seq<int>, q: Matrix, a: Matrix, b: Matrix)
    requires NextOn(ideal, counts, q, a) && NextOn(ideal, counts, q, b)
    ensures a == b
  {
    hide Swapped, SquaredDeviation, Col;
    var d := DeficitsOf(q, counts);
    var v :| LeastMove(ideal, q, d, v) && a == Swapped(q, v);
    var w :| LeastMove(ideal, q, d, w) && b == Swapped(q, w);
    LeastUnique(ideal, q, d, v, w);
  }

  /** A path that ends where no swap is left. */
  ghost predicate Finishes(ideal: Ideals, counts: seq<int>, path: seq<Matrix>) {
    && path != [] && Descends(ideal, counts, path) && Shape(path[|path| - 1], |counts|)
    && Stuck(ideal, path[|path| - 1], DeficitsOf(path[|path| - 1], counts))
  }

  lemma StuckIsLast(ideal: Ideals, counts: seq<int>, q: Matrix, next: Matrix)
    requires Shape(q, |counts|) && Stuck(ideal, q, DeficitsOf(q, counts))
    ensures !NextOn(ideal, counts, q, next)
  {
  }

  /** The start determines the whole correction. */
  lemma {:induction false} PathUnique(ideal: Ideals, counts: seq<int>, a: seq<Matrix>, b: seq<Matrix>)
    requires Finishes(ideal, counts, a) && Finishes(ideal, counts, b) && a[0] == b[0]
    ensures a == b
  {
    hide NextOn, Stuck;
    if |a| == 1 || |b| == 1 {
      if |a| > 1 {
        StuckIsLast(ideal, counts, b[0], a[1]);
      } else if |b| > 1 {
        StuckIsLast(ideal, counts, a[0], b[1]);
      }
    } else {
      NextUnique(ideal, counts, a[0], a[1], b[1]);
      PathUnique(ideal, counts, a[1..], b[1..]);
      assert a == [a[0]] + a[1..] && b == [b[0]] + b[1..];
    }
  }
}
