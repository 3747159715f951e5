/** Adding empty strata and empty groups to an input of the quota solver changes nothing for the others. */
module QuotaPadding {
  import opened Prelude
  import opened Apportionment
  import opened Allocation
  import opened QuotaMatrix
  import opened QuotaProgress
  import opened Stratification

  // ---------------------------------------------------------------------------------
  // Names
  // ---------------------------------------------------------------------------------

  function Name(i: nat): (s: string)
    ensures |s| == i + 1 && ColonFree(s)
  {
    seq(i + 1, _ => 'x')
  }

  function Names(n: nat): (r: seq<string>)
    ensures |r| == n && forall i :: 0 <= i < n ==> r[i] == Name(i)
  {
    seq(n, i requires 0 <= i < n => Name(i))
  }

  /** Named entries with these counts. */
  function Entries(counts: seq<int>): (r: seq<Entry>)
    ensures |r| == |counts| && forall i :: 0 <= i < |r| ==> r[i] == Entry(Name(i), counts[i])
  {
    seq(|counts|, i requires 0 <= i < |counts| => Entry(Name(i), counts[i]))
  }

  lemma EntriesFacts(counts: seq<int>)
    ensures DistinctKeys(Entries(counts)) && Distinct(Names(|counts|))
    ensures Counts(Entries(counts)) == counts && Keys(Entries(counts)) == Names(|counts|)
    ensures Covers(Entries(counts), Names(|counts|))
    ensures forall g :: 0 <= g < |counts| ==> Known(Entries(counts), Names(|counts|)[g])
    ensures ColumnCounts(Entries(counts), Names(|counts|)) == counts
  {
    hide CountOf;
    var entries, names := Entries(counts), Names(|counts|);
    forall i, j | 0 <= i < j < |counts| ensures Name(i) != Name(j) {
      assert |Name(i)| != |Name(j)|;
    }
    forall g | 0 <= g < |counts|
      ensures Known(entries, names[g]) && CountOf(entries, names[g]) == counts[g] && entries[g].key in names
    {
      assert names[g] == entries[g].key;
      CountOfUnique(entries, g);
    }
  }

  // ---------------------------------------------------------------------------------
  // Padding
  // ---------------------------------------------------------------------------------

  function Pad(core: seq<int>, n: nat): (r: seq<int>)
    requires |core| <= n
    ensures |r| == n && forall i :: 0 <= i < n ==> r[i] == if i < |core| then core[i] else 0
  {
    core + seq(n - |core|, _ => 0)
  }

  lemma {:induction false} PadSum(core: seq<int>, n: nat)
    requires |core| <= n
    ensures Sum(Pad(core, n)) == Sum(core)
    decreases n
  {
    if n == |core| {
      assert Pad(core, n) == core;
    } else {
      PadSum(core, n - 1);
      assert Pad(core, n)[..n - 1] == Pad(core, n - 1);
    }
  }

  function RowOf(m: Matrix, s: nat): seq<int> {
    if s < |m| then m[s] else []
  }

  function PadMatrix(m: Matrix, rows: nat, columns: nat): (r: Matrix)
    requires |m| <= rows && forall s :: 0 <= s < |m| ==> |m[s]| <= columns
    ensures |r| == rows && forall s :: 0 <= s < rows ==> |RowOf(m, s)| <= columns && r[s] == Pad(RowOf(m, s), columns)
    ensures Shape(r, columns)
  {
    seq(rows, s requires 0 <= s < rows => Pad(RowOf(m, s), columns))
  }

  lemma {:induction false} ColumnOfZeros(p: Matrix, g: nat)
    requires forall s :: 0 <= s < |p| ==> g < |p[s]| && p[s][g] == 0
    ensures Col(p, g) == 0
  {
    if p != [] {
      ColumnOfZeros(p[..|p| - 1], g);
    }
  }

  lemma {:induction false} ColumnThenZeros(p: Matrix, m: Matrix, g: nat)
    requires |m| <= |p| && (forall s :: 0 <= s < |p| ==> g < |p[s]|) && (forall s :: 0 <= s < |m| ==> g < |m[s]|)
    requires forall s :: 0 <= s < |p| ==> p[s][g] == if s < |m| then m[s][g] else 0
    ensures Col(p, g) == Col(m, g)
  {
    var n := |p| - 1;
    if |m| < |p| {
      ColumnThenZeros(p[..n], m, g);
    } else if p != [] {
      ColumnThenZeros(p[..n], m[..n], g);
    }
  }

  lemma PadColumn(m: Matrix, width: nat, rows: nat, columns: nat, g: nat)
    requires |m| <= rows && Shape(m, width) && width <= columns && g < columns
    ensures Col(PadMatrix(m, rows, columns), g) == if g < width then Col(m, g) else 0
  {
    hide Col;
    var p := PadMatrix(m, rows, columns);
    forall s | 0 <= s < rows ensures p[s][g] == if s < |m| && g < width then m[s][g] else 0 {
      assert p[s] == Pad(RowOf(m, s), columns);
    }
    if g < width {
      ColumnThenZeros(p, m, g);
    } else {
      ColumnOfZeros(p, g);
    }
  }

  /** A core input: sizes and counts that are not negative and add up to the same positive total. */
  predicate Core(sizes: seq<int>, counts: seq<int>, total: int) {
    total > 0 && Sum(sizes) == total == Sum(counts) && NonNegative(sizes) && NonNegative(counts)
  }

  /** The padded input. */
  function Strata(sizes: seq<int>, rows: nat): seq<Entry>
    requires |sizes| <= rows
  {
    Entries(Pad(sizes, rows))
  }

  lemma PaddedInput(sizes: seq<int>, counts: seq<int>, total: int, rows: nat, columns: nat)
    requires Core(sizes, counts, total) && |sizes| <= rows && |counts| <= columns
    ensures var strata, groups, order := Strata(sizes, rows), Strata(counts, columns), Names(columns);
            && |strata| == rows && |order| == columns
            && DistinctKeys(strata) && DistinctKeys(groups) && Distinct(order)
            && Counts(strata) == Pad(sizes, rows)
            && ValidInput(strata, groups, order, total) && Regular(strata, groups, order)
            && ColumnCounts(groups, order) == Pad(counts, columns)
            && Ideal(strata, groups, order, total) == IdealMatrix(Pad(sizes, rows), Pad(counts, columns), total)
  {
    hide Sum, DistinctKeys, Distinct, KeysInjective, CountOf, IdealMatrix, Known;
    PadSum(sizes, rows);
    PadSum(counts, columns);
    EntriesFacts(Pad(sizes, rows));
    EntriesFacts(Pad(counts, columns));
    ColonFreeInjective(Names(rows), Names(columns));
  }

  /** Ideals are those of the core, and zero elsewhere. */
  lemma PaddedIdeal(sizes: seq<int>, counts: seq<int>, total: int, rows: nat, columns: nat, s: nat, g: nat)
    requires total > 0 && |sizes| <= rows && |counts| <= columns && s < rows && g < columns
    ensures IdealMatrix(Pad(sizes, rows), Pad(counts, columns), total)[s][g]
         == if s < |sizes| && g < |counts| then IdealMatrix(sizes, counts, total)[s][g] else 0.0
  {
    hide Share;
    ShareOfNothing(Pad(counts, columns)[g] as real, total as real);
    ShareBounds(Pad(sizes, rows)[s] as real, total as real);
  }

  /** What a padded matrix inherits from its core. */
  lemma PaddedCell(m: Matrix, width: nat, rows: nat, columns: nat, s: nat, g: nat)
    requires |m| <= rows && Shape(m, width) && width <= columns && s < rows && g < columns
    ensures PadMatrix(m, rows, columns)[s][g] == if s < |m| && g < width then m[s][g] else 0
  {
  }

  lemma PaddedRows(sizes: seq<int>, m: Matrix, width: nat, rows: nat, columns: nat)
    requires RowsMatch(sizes, m) && Shape(m, width) && |m| <= rows && width <= columns
    ensures RowsMatch(Pad(sizes, rows), PadMatrix(m, rows, columns))
  {
    forall s | 0 <= s < rows ensures Sum(PadMatrix(m, rows, columns)[s]) == Pad(sizes, rows)[s] {
      PadSum(RowOf(m, s), columns);
    }
  }

  lemma PaddedDeficits(counts: seq<int>, m: Matrix, rows: nat, columns: nat)
    requires Shape(m, |counts|) && |m| <= rows && |counts| <= columns
    ensures DeficitsOf(PadMatrix(m, rows, columns), Pad(counts, columns)) == Pad(DeficitsOf(m, counts), columns)
  {
    hide Col;
    forall g | 0 <= g < columns
      ensures Pad(counts, columns)[g] - Col(PadMatrix(m, rows, columns), g) == Pad(DeficitsOf(m, counts), columns)[g]
    {
      PadColumn(m, |counts|, rows, columns, g);
    }
  }

  lemma PaddedTight(sizes: seq<int>, counts: seq<int>, total: int, m: Matrix, rows: nat, columns: nat)
    requires total > 0 && |m| == |sizes| <= rows && |counts| <= columns
    requires Tight(IdealMatrix(sizes, counts, total), m, |counts|)
    ensures Tight(IdealMatrix(Pad(sizes, rows), Pad(counts, columns), total), PadMatrix(m, rows, columns), columns)
  {
    hide Share, IdealMatrix, Pad, PadMatrix;
    var core: Ideals := IdealMatrix(sizes, counts, total);
    var ideal: Ideals := IdealMatrix(Pad(sizes, rows), Pad(counts, columns), total);
    var p := PadMatrix(m, rows, columns);
    forall s, g | 0 <= s < rows && 0 <= g < columns
      ensures ideal[s][g].Floor <= p[s][g] && 0 <= p[s][g] <= Ceiling(ideal[s][g])
    {
      PaddedIdeal(sizes, counts, total, rows, columns, s, g);
      PaddedCell(m, |counts|, rows, columns, s, g);
      if s < |m| && g < |counts| {
        assert core[s][g].Floor <= m[s][g];
        assert 0 <= m[s][g] <= Ceiling(core[s][g]);
      }
    }
  }

  /** Rounding up never skips priority: an empty group has no remainder. */
  lemma PaddedApportioned(q: seq<real>, c: seq<int>, q': seq<real>, c': seq<int>)
    requires Apportioned(q, c) && |q| <= |q'| == |c'| && forall g :: 0 <= g < |q| ==> c[g] <= Ceiling(q[g])
    requires forall g :: 0 <= g < |q'| ==> q'[g] == if g < |q| then q[g] else 0.0
    requires forall g :: 0 <= g < |q'| ==> c'[g] == if g < |q| then c[g] else 0
    ensures Apportioned(q', c')
  {
    forall i, j | 0 <= i < |q'| && 0 <= j < |q'| && c'[i] == q'[i].Floor + 1 && c'[j] == q'[j].Floor
      ensures Prior(q', i, j)
    {
      if i < |q| && j < |q| {
        assert Prior(q, i, j);
      }
    }
  }

  lemma PaddedRowPhase(sizes: seq<int>, counts: seq<int>, total: int, m: Matrix, rows: nat, columns: nat)
    requires total > 0 && |m| == |sizes| <= rows && |counts| <= columns && Shape(m, |counts|)
    requires RowsApportioned(IdealMatrix(sizes, counts, total), m)
    requires Tight(IdealMatrix(sizes, counts, total), m, |counts|)
    ensures RowsApportioned(IdealMatrix(Pad(sizes, rows), Pad(counts, columns), total), PadMatrix(m, rows, columns))
  {
    hide Share, IdealMatrix, Pad, PadMatrix, Apportioned;
    var core, ideal := IdealMatrix(sizes, counts, total), IdealMatrix(Pad(sizes, rows), Pad(counts, columns), total);
    var p := PadMatrix(m, rows, columns);
    forall s | 0 <= s < rows ensures Apportioned(ideal[s], p[s]) {
      forall g | 0 <= g < columns
        ensures ideal[s][g] == if s < |m| && g < |counts| then core[s][g] else 0.0
        ensures p[s][g] == if s < |m| && g < |counts| then m[s][g] else 0
      {
        PaddedIdeal(sizes, counts, total, rows, columns, s, g);
        PaddedCell(m, |counts|, rows, columns, s, g);
      }
      if s < |m| {
        assert Apportioned(core[s], m[s]);
        PaddedApportioned(core[s], m[s], ideal[s], p[s]);
      } else {
        EmptyApportioned();
        PaddedApportioned([], [], ideal[s], p[s]);
      }
    }
  }

  lemma EmptyApportioned()
    ensures Apportioned([], [])
  {
  }

  /** A core without a swap stays without one. */
  lemma PaddedStuck(sizes: seq<int>, counts: seq<int>, total: int, m: Matrix, rows: nat, columns: nat)
    requires total > 0 && |m| == |sizes| <= rows && |counts| <= columns && Shape(m, |counts|)
    requires Stuck(IdealMatrix(sizes, counts, total), m, DeficitsOf(m, counts))
    ensures Stuck(IdealMatrix(Pad(sizes, rows), Pad(counts, columns), total), PadMatrix(m, rows, columns),
                  DeficitsOf(PadMatrix(m, rows, columns), Pad(counts, columns)))
  {
    hide Share, IdealMatrix, PadMatrix, DeficitsOf;
    var core, ideal := IdealMatrix(sizes, counts, total), IdealMatrix(Pad(sizes, rows), Pad(counts, columns), total);
    var p := PadMatrix(m, rows, columns);
    PaddedDeficits(counts, m, rows, columns);
    var d := DeficitsOf(p, Pad(counts, columns));
    forall w: Swap ensures !Feasible(ideal, p, d, w) {
      assert !Feasible(core, m, DeficitsOf(m, counts), w);
      if w.stratum < rows && w.deficit < columns && w.surplus < columns {
        PaddedIdeal(sizes, counts, total, rows, columns, w.stratum, w.deficit);
        PaddedCell(m, |counts|, rows, columns, w.stratum, w.deficit);
        PaddedCell(m, |counts|, rows, columns, w.stratum, w.surplus);
      }
    }
  }
}
