/**
 The correction loop of the stratified quota solver (packages/abtest/src/stratification.ts), and the shapes on which it
 always ends with every column right.
 */
module ColumnCorrection {
  import opened Prelude
  import opened Apportionment
  import opened QuotaMatrix
  import opened QuotaProgress

  /** Shapes on which the loop never needs a swap below a floor. */
  predicate Steady(rows: nat, columns: nat) {
    rows <= 3 || columns <= 2 || (rows == 4 && columns == 3)
  }

  /** Shapes on which the loop always resolves every deficit. */
  predicate Convergent(rows: nat, columns: nat) {
    rows <= 3 || columns <= 2 || (rows <= 5 && columns == 3)
  }

  /** The loop starts from the row apportionment of proportional ideals with the right sums. */
  ghost predicate Sound(ideal: Ideals, start: Matrix, counts: seq<int>) {
    && Exact(ideal, start, counts) && RowsApportioned(ideal, start) && Proportional(ideal, |counts|)
    && Tight(ideal, start, |counts|) && Sum(DeficitsOf(start, counts)) == 0
  }

  /** A column may be below a floor only when no other column is in surplus. */
  predicate Guarded(ideal: Ideals, q: Matrix, d: seq<int>) {
    forall g, h :: 0 <= g < |d| && 0 <= h < |d| && g != h && d[h] < 0 ==> ColumnAboveFloor(ideal, q, g)
  }

  // ---------------------------------------------------------------------------------
  // The best swap
  // ---------------------------------------------------------------------------------

  lemma BestIsBounded(ideal: Ideals, q: Matrix, d: seq<int>, w: Swap, a: nat, b: nat)
    requires BestOf(ideal, q, d, Some(w), x => true) && !NoBoundedSwap(ideal, q, d, a, b)
    ensures Feasible(ideal, q, d, w) && KeepsFloor(ideal, q, d, w)
  {
    hide Score;
    var s: nat :| Feasible(ideal, q, d, Swap(a, b, s)) && KeepsFloor(ideal, q, d, Swap(a, b, s));
    FeasibleInRange(ideal, q, d, w);
    assert AtLeastAsGood(ideal, q, d, w, Swap(a, b, s));
  }

  /** On a steady shape every deficit and surplus have a bounded swap between them. */
  lemma SteadySwap(ideal: Ideals, start: Matrix, q: Matrix, d: seq<int>, counts: seq<int>, a: nat, b: nat)
    requires Reached(ideal, start, q, d, counts) && AboveFloor(ideal, q, |counts|)
    requires Steady(|q|, |counts|) && |d| == |counts| && a < |d| && b < |d| && d[a] > 0 && d[b] < 0
    ensures !NoBoundedSwap(ideal, q, d, a, b)
  {
    hide Apportioned, Proportional, Drifted, NoBoundedSwap, Apart, AboveFloor, BelowCeiling, Exact, Deficits,
         RowsApportioned;
    if |counts| == 2 {
      TwoColumnsSwap(ideal, q, d, counts, a, b);
    } else if |q| <= 3 {
      FewRowsSwap(ideal, q, d, counts, a, b);
    } else if NoBoundedSwap(ideal, q, d, a, b) {
      ReachedSums(ideal, start, q, d, counts, a, b);
      RowsApart(ideal, q, d, counts, a, b);
      ThreeColumnsStuck(ideal, start, q, d, counts, a, b, 3 - a - b);
    }
  }

  // ---------------------------------------------------------------------------------
  // One step
  // ---------------------------------------------------------------------------------

  lemma DriftStep(ideal: Ideals, start: Matrix, q: Matrix, d0: seq<int>, d: seq<int>, w: Swap)
    requires Feasible(ideal, q, d, w) && Drifted(start, q, d0, d)
    ensures Drifted(start, q[w.stratum := SwapRow(q[w.stratum], w)], d0, SwapDeficits(d, w))
  {
  }

  lemma ReachedStep(ideal: Ideals, start: Matrix, q: Matrix, d: seq<int>, counts: seq<int>, w: Swap)
    requires Feasible(ideal, q, d, w) && Reached(ideal, start, q, d, counts)
    ensures Reached(ideal, start, q[w.stratum := SwapRow(q[w.stratum], w)], SwapDeficits(d, w), counts)
  {
    hide Proportional, RowsApportioned, Sum, SumR, Col, ColR, PositivePart, Feasible, Drifted, BelowCeiling, Deficits,
         SwapRow, SwapDeficits;
    FeasibleInRange(ideal, q, d, w);
    DriftStep(ideal, start, q, DeficitsOf(start, counts), d, w);
    SwapEffect(ideal, q, d, counts, w);
    SwapBounds(ideal, q, d, w);
    assert |d| == |counts| by { DeficitsShape(q, d, counts); }
  }

  lemma DeficitsShape(q: Matrix, d: seq<int>, counts: seq<int>)
    requires Deficits(q, d, counts)
    ensures |d| == |counts| && Shape(q, |d|)
  {
  }

  lemma AboveFloorIsGuarded(ideal: Ideals, q: Matrix, d: seq<int>)
    requires AboveFloor(ideal, q, |d|)
    ensures Guarded(ideal, q, d)
  {
  }

  /** Taking the last surplus column's seat: the other columns stay above their floors. */
  lemma OnlySurplusStep(ideal: Ideals, q: Matrix, d: seq<int>, w: Swap)
    requires Feasible(ideal, q, d, w) && Guarded(ideal, q, d)
    requires forall h :: 0 <= h < |d| && h != w.surplus ==> d[h] >= 0
    ensures Guarded(ideal, q[w.stratum := SwapRow(q[w.stratum], w)], SwapDeficits(d, w))
  {
    var q', d' := q[w.stratum := SwapRow(q[w.stratum], w)], SwapDeficits(d, w);
    forall g, h | 0 <= g < |d| && 0 <= h < |d| && g != h && d'[h] < 0 ensures ColumnAboveFloor(ideal, q', g) {
      assert h == w.surplus;
      assert ColumnAboveFloor(ideal, q, g);
    }
  }

  lemma GuardedIsTight(ideal: Ideals, q: Matrix, d: seq<int>, b: nat, c: nat)
    requires Guarded(ideal, q, d) && BelowCeiling(ideal, q, |d|)
    requires b < |d| && c < |d| && b != c && d[b] < 0 && d[c] < 0
    ensures Tight(ideal, q, |d|)
  {
    forall s, g | 0 <= s < |q| && 0 <= g < |d| ensures ideal[s][g].Floor <= q[s][g] {
      assert g != b || g != c;
      assert ColumnAboveFloor(ideal, q, g);
    }
  }

  lemma GuardedStep(ideal: Ideals, start: Matrix, q: Matrix, d: seq<int>, counts: seq<int>, w: Swap)
    requires Reached(ideal, start, q, d, counts) && Guarded(ideal, q, d) && Sum(d) == 0
    requires |counts| == |d| == 3 && |q| <= 6 && BestOf(ideal, q, d, Some(w), x => true)
    ensures Guarded(ideal, q[w.stratum := SwapRow(q[w.stratum], w)], SwapDeficits(d, w))
  {
    hide Apportioned, Proportional, Drifted, NoBoundedSwap, Guarded, BelowCeiling, AboveFloor, Exact, Deficits, Sum,
         RowsApportioned, Feasible, SwapRow, SwapDeficits, BestOf;
    assert Feasible(ideal, q, d, w) by { BestIsFeasible(ideal, q, d, w); }
    FeasibleInRange(ideal, q, d, w);
    var a, b := w.deficit, w.surplus;
    var c := 3 - a - b;
    if d[c] < 0 {
      GuardedIsTight(ideal, q, d, b, c);
      TwoSurplusesSwap(ideal, q, d, counts, a, b, c);
      if !NoBoundedSwap(ideal, q, d, a, b) {
        BestIsBounded(ideal, q, d, w, a, b);
      } else {
        BestIsBounded(ideal, q, d, w, a, c);
      }
      SwapBounds(ideal, q, d, w);
      AboveFloorIsGuarded(ideal, q[w.stratum := SwapRow(q[w.stratum], w)], SwapDeficits(d, w));
    } else {
      OnlySurplusStep(ideal, q, d, w);
    }
  }

  lemma BestIsFeasible(ideal: Ideals, q: Matrix, d: seq<int>, w: Swap)
    requires BestOf(ideal, q, d, Some(w), x => true)
    ensures Feasible(ideal, q, d, w)
  {
  }

  // ---------------------------------------------------------------------------------
  // The end
  // ---------------------------------------------------------------------------------

  lemma BoundedSwapIsFeasible(ideal: Ideals, q: Matrix, d: seq<int>, a: nat, b: nat)
    requires Stuck(ideal, q, d)
    ensures NoBoundedSwap(ideal, q, d, a, b)
  {
  }

  /** On a convergent shape a stuck matrix has no deficit left. */
  lemma Settled(ideal: Ideals, start: Matrix, q: Matrix, d: seq<int>, counts: seq<int>)
    requires Reached(ideal, start, q, d, counts) && Stuck(ideal, q, d) && Sum(d) == 0 && |d| == |counts|
    requires Convergent(|q|, |counts|)
    requires Steady(|q|, |counts|) ==> AboveFloor(ideal, q, |counts|)
    requires |counts| == 3 && |q| <= 5 ==> Guarded(ideal, q, d)
    ensures forall g :: 0 <= g < |d| ==> d[g] == 0
  {
    hide Reached, AboveFloor, NoBoundedSwap, Stuck, ColumnAboveFloor, Sum;
    if a, b :| 0 <= a < |d| && 0 <= b < |d| && d[a] > 0 && d[b] < 0 {
      if Steady(|q|, |counts|) {
        SteadySwap(ideal, start, q, d, counts, a, b);
        BoundedSwapIsFeasible(ideal, q, d, a, b);
      } else {
        SixRows(ideal, start, q, d, counts, a, b, 3 - a - b);
      }
    }
    SettledIsZero(d);
  }

  lemma CapExceeds(rows: nat, columns: nat, width: nat)
    requires columns <= width
    ensures rows * columns < rows * width * width + 16
  {
    assert rows * columns <= rows * width;
    if width > 0 {
      assert rows * width * width == rows * width + rows * width * (width - 1);
      assert rows * width * (width - 1) >= 0;
    }
  }

  /** What the loop keeps when it starts from a sound matrix. */
  ghost predicate OnTrack(ideal: Ideals, start: Matrix, q: Matrix, d: seq<int>, counts: seq<int>) {
    && Reached(ideal, start, q, d, counts) && Sum(d) == 0
    && (Steady(|q|, |counts|) ==> AboveFloor(ideal, q, |counts|))
    && (|counts| == 3 && |q| <= 5 ==> Guarded(ideal, q, d))
  }

  lemma OnTrackStarts(ideal: Ideals, start: Matrix, counts: seq<int>)
    requires |ideal| == |start| && Shape(start, |counts|) && Sound(ideal, start, counts)
    ensures OnTrack(ideal, start, start, DeficitsOf(start, counts), counts)
  {
    hide Proportional, RowsApportioned, Sum, SumR, Col;
    AboveFloorIsGuarded(ideal, start, DeficitsOf(start, counts));
  }

  lemma OnTrackStep(ideal: Ideals, start: Matrix, q: Matrix, d: seq<int>, counts: seq<int>, w: Swap)
    requires OnTrack(ideal, start, q, d, counts) && BestOf(ideal, q, d, Some(w), x => true) && |d| == |counts|
    requires InRange(ideal, q, d, w) && Sum(SwapDeficits(d, w)) == Sum(d)
    ensures OnTrack(ideal, start, q[w.stratum := SwapRow(q[w.stratum], w)], SwapDeficits(d, w), counts)
  {
    hide Reached, AboveFloor, Guarded, Sum, SwapRow, SwapDeficits, Feasible, KeepsFloor, NoBoundedSwap, BestOf;
    BestIsFeasible(ideal, q, d, w);
    FeasibleInRange(ideal, q, d, w);
    ReachedStep(ideal, start, q, d, counts, w);
    if Steady(|q|, |counts|) {
      SteadySwap(ideal, start, q, d, counts, w.deficit, w.surplus);
      BestIsBounded(ideal, q, d, w, w.deficit, w.surplus);
      SwapBounds(ideal, q, d, w);
    }
    if |counts| == 3 && |q| <= 5 {
      GuardedStep(ideal, start, q, d, counts, w);
    }
  }

  /**
   Runs swaps until none is possible.  The iteration cap of the source is never what ends the loop, because the
   seats lacking start at most at rows times columns and every swap removes one.  From a sound start every deficit is
   resolved on the convergent shapes, and within floor and ceiling on the steady ones.  `width` is the length of the
   group order, which is longer than the number of columns when it repeats a group.
   */
  method CorrectColumns(ideal: Ideals, start: Matrix, counts: seq<int>, width: nat)
    returns (q: Matrix, d: seq<int>, ghost path: seq<Matrix>)
    requires |counts| <= width
    requires |ideal| == |start| && Shape(ideal, |counts|) && Shape(start, |counts|)
    requires PositivePart(DeficitsOf(start, counts)) <= |start| * |counts|
    ensures |q| == |start| && Deficits(q, d, counts) && Stuck(ideal, q, d)
    ensures forall s :: 0 <= s < |q| ==> Sum(q[s]) == Sum(start[s])
    ensures Sum(d) == Sum(DeficitsOf(start, counts))
    // Every swap was the one that leaves the matrix closest to its ideals, and removed one seat lacking.
    ensures path != [] && Finishes(ideal, counts, path) && path[0] == start && path[|path| - 1] == q
    ensures PositivePart(d) + |path| - 1 == PositivePart(DeficitsOf(start, counts))
    ensures CellsNonNegative(start) ==> CellsNonNegative(q)
    ensures BelowCeiling(ideal, start, |counts|) ==> BelowCeiling(ideal, q, |counts|)
    ensures Drifted(start, q, DeficitsOf(start, counts), d)
    ensures Stuck(ideal, start, DeficitsOf(start, counts)) ==> q == start
    ensures Sound(ideal, start, counts) && Steady(|start|, |counts|) ==> AboveFloor(ideal, q, |counts|)
    ensures Sound(ideal, start, counts) && Convergent(|start|, |counts|) ==> forall g :: 0 <= g < |d| ==> d[g] == 0
  {
    hide Deficits, CellsNonNegative, BelowCeiling, AboveFloor, Feasible, PositivePart, Sum, Col, Sound, OnTrack,
         Drifted, SwapRow, SwapDeficits, Steady, Convergent, Descends, Stuck;
    q, d := start, DeficitsOf(start, counts);
    path := [start];
    PathStarts(ideal, counts, start);
    DeficitsShape(q, d, counts);
    CapExceeds(|start|, |counts|, width);
    DriftStarts(start, d);
    if Sound(ideal, start, counts) {
      OnTrackStarts(ideal, start, counts);
    }
    var maxIterations := |start| * width * width + 16;
    var iter := 0;
    while iter < maxIterations
      invariant |q| == |start| && Deficits(q, d, counts) && |d| == |counts| && Shape(q, |d|)
      invariant forall s :: 0 <= s < |q| ==> Sum(q[s]) == Sum(start[s])
      invariant Sum(d) == Sum(DeficitsOf(start, counts))
      invariant |path| == iter + 1 && PositivePart(d) + iter == PositivePart(DeficitsOf(start, counts))
      invariant path[0] == start && path[|path| - 1] == q && Descends(ideal, counts, path)
      invariant CellsNonNegative(start) ==> CellsNonNegative(q)
      invariant BelowCeiling(ideal, start, |counts|) ==> BelowCeiling(ideal, q, |counts|)
      invariant Drifted(start, q, DeficitsOf(start, counts), d)
      invariant Stuck(ideal, start, DeficitsOf(start, counts)) ==> q == start && d == DeficitsOf(start, counts)
      invariant Sound(ideal, start, counts) ==> OnTrack(ideal, start, q, d, counts)
      decreases maxIterations - iter
    {
      var best := FindBestSwap(ideal, q, d);
      if best.None? {
        NoneIsStuck(ideal, q, d);
        break;
      }
      var w := best.value;
      BestIsFeasible(ideal, q, d, w);
      StuckHasNone(ideal, q, d, w);
      FeasibleInRange(ideal, q, d, w);
      PathExtends(ideal, counts, path, d, w);
      path := path + [Swapped(q, w)];
      SwapEffect(ideal, q, d, counts, w);
      SwapBounds(ideal, q, d, w);
      DriftStep(ideal, start, q, DeficitsOf(start, counts), d, w);
      if Sound(ideal, start, counts) {
        OnTrackStep(ideal, start, q, d, counts, w);
      }
      q, d := q[w.stratum := SwapRow(q[w.stratum], w)], SwapDeficits(d, w);
      DeficitsShape(q, d, counts);
      iter := iter + 1;
    }
    SameDeficits(q, d, counts);
    if Sound(ideal, start, counts) {
      TrackEnds(ideal, start, q, d, counts);
    }
  }

  lemma PathStarts(ideal: Ideals, counts: seq<int>, start: Matrix)
    ensures Descends(ideal, counts, [start])
  {
  }

  lemma SameDeficits(q: Matrix, d: seq<int>, counts: seq<int>)
    requires Deficits(q, d, counts)
    ensures Shape(q, |counts|) && DeficitsOf(q, counts) == d
  {
  }

  lemma PathExtends(ideal: Ideals, counts: seq<int>, path: seq<Matrix>, d: seq<int>, w: Swap)
    requires path != [] && Descends(ideal, counts, path) && Deficits(path[|path| - 1], d, counts)
    requires BestOf(ideal, path[|path| - 1], d, Some(w), x => true)
    ensures InRange(ideal, path[|path| - 1], d, w) && Descends(ideal, counts, path + [Swapped(path[|path| - 1], w)])
  {
    hide NextOn, BestOf, LeastMove, Deficits;
    var q := path[|path| - 1];
    BestIsLeast(ideal, q, d, w);
    SameDeficits(q, d, counts);
    StepIsNext(ideal, counts, q, w);
    BestIsFeasible(ideal, q, d, w);
    var longer := path + [Swapped(q, w)];
    forall k | 0 <= k < |longer| - 1 ensures NextOn(ideal, counts, longer[k], longer[k + 1]) {
      if k == |path| - 1 {
        assert longer[k] == q && longer[k + 1] == Swapped(q, w);
      } else {
        assert longer[k] == path[k] && longer[k + 1] == path[k + 1];
      }
    }
  }

  lemma StepIsNext(ideal: Ideals, counts: seq<int>, q: Matrix, w: Swap)
    requires Shape(q, |counts|) && LeastMove(ideal, q, DeficitsOf(q, counts), w)
    ensures NextOn(ideal, counts, q, Swapped(q, w))
  {
  }

  lemma NoneIsStuck(ideal: Ideals, q: Matrix, d: seq<int>)
    requires BestOf(ideal, q, d, None, x => true)
    ensures Stuck(ideal, q, d)
  {
  }

  lemma StuckHasNone(ideal: Ideals, q: Matrix, d: seq<int>, w: Swap)
    requires Feasible(ideal, q, d, w)
    ensures !Stuck(ideal, q, d)
  {
  }

  lemma DriftStarts(start: Matrix, d: seq<int>)
    requires Shape(start, |d|)
    ensures Drifted(start, start, d, d)
  {
  }

  lemma TrackEnds(ideal: Ideals, start: Matrix, q: Matrix, d: seq<int>, counts: seq<int>)
    requires OnTrack(ideal, start, q, d, counts) && Stuck(ideal, q, d) && |d| == |counts|
    ensures Steady(|q|, |counts|) ==> AboveFloor(ideal, q, |counts|)
    ensures Convergent(|q|, |counts|) ==> forall g :: 0 <= g < |d| ==> d[g] == 0
  {
    hide Reached, AboveFloor, Guarded, Sum, Stuck;
    if Convergent(|q|, |counts|) {
      Settled(ideal, start, q, d, counts);
    }
  }
}
