/**
 The stored form of a quota matrix and the check that the store applies to it on loading
 (packages/abtest/src/persistence.ts): which matrices it accepts, what acceptance means, and that it accepts what the
 solver computes exactly when the concatenated cell keys do not clash.
 */
module StoredStratification {
  import opened Prelude
  import opened Apportionment
  import opened Allocation
  import opened QuotaMatrix
  import opened ColumnCorrection
  import opened Stratification

  /** A numeric property of a stored object. */
  datatype Property = Property(key: string, value: real)

  datatype QuotaRow = QuotaRow(key: string, cells: seq<Property>)

  datatype Cell = Cell(stratum: string, group: string, quota: real, ideal: real)

  datatype Stored = Stored(quotas: seq<QuotaRow>, cells: seq<Cell>, sizes: seq<Property>)

  predicate UniqueProperties(o: seq<Property>) {
    forall i, j :: 0 <= i < j < |o| ==> o[i].key != o[j].key
  }

  /** The keys of one object are different, as they are in any JavaScript object. */
  predicate WellFormed(st: Stored) {
    && UniqueProperties(st.sizes)
    && (forall i :: 0 <= i < |st.quotas| ==> UniqueProperties(st.quotas[i].cells))
    && (forall i, j :: 0 <= i < j < |st.quotas| ==> st.quotas[i].key != st.quotas[j].key)
  }

  function KeySet(o: seq<Property>): set<string> {
    set p | p in o :: p.key
  }

  predicate AllWhole(o: seq<Property>) {
    forall i :: 0 <= i < |o| ==> WholeNonNegative(o[i].value)
  }

  function Values(o: seq<Property>): (r: seq<real>)
    ensures |r| == |o| && forall i :: 0 <= i < |r| ==> r[i] == o[i].value
  {
    seq(|o|, i requires 0 <= i < |o| => o[i].value)
  }

  function KeyOf(c: Cell): string {
    CellKey(c.stratum, c.group)
  }

  // ---------------------------------------------------------------------------------
  // What is accepted
  // ---------------------------------------------------------------------------------

  /** All rows have the same groups and whole non-negative quotas. */
  predicate RowsOk(quotas: seq<QuotaRow>) {
    forall i :: 0 <= i < |quotas| ==> KeySet(quotas[i].cells) == KeySet(quotas[0].cells) && AllWhole(quotas[i].cells)
  }

  /** The cell repeats an entry of the matrix. */
  predicate InMatrix(quotas: seq<QuotaRow>, c: Cell) {
    exists i :: 0 <= i < |quotas| && quotas[i].key == c.stratum && Property(c.group, c.quota) in quotas[i].cells
  }

  predicate CellOk(st: Stored, c: Cell) {
    WholeNonNegative(c.quota) && c.ideal >= 0.0 && c.stratum in KeySet(st.sizes) && InMatrix(st.quotas, c)
  }

  predicate CellsOk(st: Stored, upTo: nat)
    requires upTo <= |st.cells|
  {
    && (forall c :: 0 <= c < upTo ==> CellOk(st, st.cells[c]))
    && (forall c, d :: 0 <= c < d < upTo ==> KeyOf(st.cells[c]) != KeyOf(st.cells[d]))
  }

  /** Rows add up to the stratum sizes, and sizes and rows name the same strata. */
  predicate SizesOk(st: Stored) {
    && AllWhole(st.sizes)
    && (forall i :: 0 <= i < |st.quotas| ==> Property(st.quotas[i].key, SumR(Values(st.quotas[i].cells))) in st.sizes)
    && (forall k :: 0 <= k < |st.sizes| ==> HasRow(st.quotas, st.sizes[k].key))
  }

  predicate HasRow(quotas: seq<QuotaRow>, key: string) {
    exists i :: 0 <= i < |quotas| && quotas[i].key == key
  }

  function CellKeys(cells: seq<Cell>): set<string> {
    set c | c in cells :: KeyOf(c)
  }

  /** No entry of the matrix lacks a cell. */
  predicate Complete(st: Stored) {
    forall i, j :: 0 <= i < |st.quotas| && 0 <= j < |st.quotas[i].cells| ==>
      CellKey(st.quotas[i].key, st.quotas[i].cells[j].key) in CellKeys(st.cells)
  }

  predicate Accepts(st: Stored) {
    RowsOk(st.quotas) && SizesOk(st) && CellsOk(st, |st.cells|) && Complete(st)
  }

  /** An accepted record has, for every stratum with its size, one row of whole quotas that add up to that size. */
  lemma AcceptedRow(st: Stored, k: nat) returns (i: nat)
    requires WellFormed(st) && Accepts(st) && k < |st.sizes|
    ensures i < |st.quotas| && st.quotas[i].key == st.sizes[k].key
    ensures SumR(Values(st.quotas[i].cells)) == st.sizes[k].value
    ensures forall j :: 0 <= j < |st.quotas[i].cells| ==> WholeNonNegative(st.quotas[i].cells[j].value)
    ensures forall j :: 0 <= j < |st.quotas| && st.quotas[j].key == st.sizes[k].key ==> j == i
  {
    hide SumR, WholeNonNegative, CellsOk, Complete;
    assert HasRow(st.quotas, st.sizes[k].key);
    i :| 0 <= i < |st.quotas| && st.quotas[i].key == st.sizes[k].key;
    var sum := Property(st.quotas[i].key, SumR(Values(st.quotas[i].cells)));
    assert sum in st.sizes;
    var l :| 0 <= l < |st.sizes| && st.sizes[l] == sum;
    assert l == k;
  }

  // ---------------------------------------------------------------------------------
  // The check
  // ---------------------------------------------------------------------------------

  lemma SameSizeSubset<T>(a: set<T>, b: set<T>)
    requires a <= b && |a| == |b|
    ensures a == b
  {
    assert b == a + (b - a);
    assert |b| == |a| + |b - a|;
  }

  method CheckRows(quotas: seq<QuotaRow>) returns (ok: bool)
    ensures ok <==> RowsOk(quotas)
  {
    hide AllWhole;
    var reference := if |quotas| > 0 then KeySet(quotas[0].cells) else {};
    for i := 0 to |quotas|
      invariant forall k :: 0 <= k < i ==> KeySet(quotas[k].cells) == reference && AllWhole(quotas[k].cells)
    {
      var keys := KeySet(quotas[i].cells);
      if |keys| != |reference| || !(keys <= reference) {
        return false;
      }
      SameSizeSubset(keys, reference);
      if !AllWhole(quotas[i].cells) {
        return false;
      }
    }
    ok := true;
  }

  /** Walks the cells with a set of the keys seen so far. */
  method CheckCells(st: Stored) returns (ok: bool, seen: set<string>)
    ensures ok <==> CellsOk(st, |st.cells|)
    ensures ok ==> seen == CellKeys(st.cells)
  {
    hide CellOk, KeyOf;
    seen := {};
    for c := 0 to |st.cells|
      invariant CellsOk(st, c)
      invariant forall d :: 0 <= d < c ==> KeyOf(st.cells[d]) in seen
      invariant seen == CellKeys(st.cells[..c])
    {
      var cell := st.cells[c];
      if !CellOk(st, cell) {
        return false, seen;
      }
      if KeyOf(cell) in seen {
        SeenAt(st.cells, c, KeyOf(cell));
        return false, seen;
      }
      SeenGrows(st.cells, c);
      seen := seen + {KeyOf(cell)};
    }
    assert st.cells[..|st.cells|] == st.cells;
    ok := true;
  }

  lemma SeenAt(cells: seq<Cell>, upTo: nat, key: string)
    requires upTo <= |cells| && key in CellKeys(cells[..upTo])
    ensures exists d :: 0 <= d < upTo && KeyOf(cells[d]) == key
  {
    var cell :| cell in cells[..upTo] && KeyOf(cell) == key;
    var d :| 0 <= d < upTo && cells[d] == cell;
  }

  lemma SeenGrows(cells: seq<Cell>, upTo: nat)
    requires upTo < |cells|
    ensures CellKeys(cells[..upTo + 1]) == CellKeys(cells[..upTo]) + {KeyOf(cells[upTo])}
  {
    assert cells[..upTo + 1] == cells[..upTo] + [cells[upTo]];
  }

  method CheckComplete(quotas: seq<QuotaRow>, seen: set<string>) returns (ok: bool)
    ensures ok <==> forall i, j :: 0 <= i < |quotas| && 0 <= j < |quotas[i].cells| ==>
                                     CellKey(quotas[i].key, quotas[i].cells[j].key) in seen
  {
    hide CellKey;
    for i := 0 to |quotas|
      invariant forall k, j :: 0 <= k < i && 0 <= j < |quotas[k].cells| ==>
                                 CellKey(quotas[k].key, quotas[k].cells[j].key) in seen
    {
      for j := 0 to |quotas[i].cells|
        invariant forall h :: 0 <= h < j ==> CellKey(quotas[i].key, quotas[i].cells[h].key) in seen
      {
        if CellKey(quotas[i].key, quotas[i].cells[j].key) !in seen {
          return false;
        }
      }
    }
    ok := true;
  }

  /** The store's check answers exactly whether the stored form is acceptable. */
  method IsStoredStratification(st: Stored) returns (ok: bool)
    requires WellFormed(st)
    ensures ok <==> Accepts(st)
  {
    hide RowsOk, CellsOk, SizesOk;
    var rows := CheckRows(st.quotas);
    if !rows {
      return false;
    }
    var cells, seen := CheckCells(st);
    if !cells || !SizesOk(st) {
      return false;
    }
    ok := CheckComplete(st.quotas, seen);
  }

  // ---------------------------------------------------------------------------------
  // What acceptance means
  // ---------------------------------------------------------------------------------

  /** Cell `c` stands for entry `j` of row `i`. */
  predicate StandsFor(st: Stored, c: nat, i: nat, j: nat) {
    && c < |st.cells| && i < |st.quotas| && j < |st.quotas[i].cells|
    && st.cells[c].stratum == st.quotas[i].key && st.cells[c].group == st.quotas[i].cells[j].key
    && st.cells[c].quota == st.quotas[i].cells[j].value
  }

  lemma CellWithKey(cells: seq<Cell>, key: string) returns (c: nat)
    requires key in CellKeys(cells)
    ensures c < |cells| && KeyOf(cells[c]) == key
  {
    hide KeyOf;
    var cell :| cell in cells && KeyOf(cell) == key;
    c :| 0 <= c < |cells| && cells[c] == cell;
  }

  /** A cell that repeats some entry of the matrix, with the keys of entry `j` of row `i`, repeats that entry. */
  lemma SameEntry(st: Stored, cell: Cell, i: nat, j: nat)
    requires WellFormed(st) && InMatrix(st.quotas, cell) && i < |st.quotas| && j < |st.quotas[i].cells|
    requires cell.stratum == st.quotas[i].key && cell.group == st.quotas[i].cells[j].key
    ensures cell.quota == st.quotas[i].cells[j].value
  {
    var k :| 0 <= k < |st.quotas| && st.quotas[k].key == cell.stratum
             && Property(cell.group, cell.quota) in st.quotas[k].cells;
    assert k < i || i < k || k == i;
    var row := st.quotas[i].cells;
    var h :| 0 <= h < |row| && row[h] == Property(cell.group, cell.quota);
    assert UniqueProperties(row);
    assert h < j || j < h || h == j;
  }

  /** With colon-free stratum keys every entry of an accepted matrix has exactly one cell, carrying its quota. */
  lemma AcceptedCells(st: Stored, i: nat, j: nat) returns (c: nat)
    requires WellFormed(st) && Accepts(st) && i < |st.quotas| && j < |st.quotas[i].cells|
    requires forall k :: 0 <= k < |st.quotas| ==> ColonFree(st.quotas[k].key)
    ensures StandsFor(st, c, i, j)
    ensures forall d: nat :: StandsFor(st, d, i, j) ==> d == c
  {
    hide WellFormed, SizesOk, RowsOk, WholeNonNegative, KeySet, InMatrix, ColonFree, CellKey;
    var row := st.quotas[i];
    c := CellWithKey(st.cells, CellKey(row.key, row.cells[j].key));
    var cell := st.cells[c];
    assert CellOk(st, cell);
    CellColonFree(st, cell);
    ColonFreeSplits(cell.stratum, cell.group, row.key, row.cells[j].key);
    SameEntry(st, cell, i, j);
    forall d: nat | StandsFor(st, d, i, j) ensures d == c {
      assert KeyOf(st.cells[d]) == KeyOf(st.cells[c]);
      assert d < c || c < d || d == c;
    }
  }

  lemma CellColonFree(st: Stored, cell: Cell)
    requires InMatrix(st.quotas, cell) && forall k :: 0 <= k < |st.quotas| ==> ColonFree(st.quotas[k].key)
    ensures ColonFree(cell.stratum)
  {
    hide ColonFree;
  }

  // ---------------------------------------------------------------------------------
  // What the solver stores
  // ---------------------------------------------------------------------------------

  function RowProperties(order: seq<string>, row: seq<int>): (r: seq<Property>)
    requires |row| == |order|
    ensures |r| == |order| && forall g :: 0 <= g < |r| ==> r[g] == Property(order[g], row[g] as real)
  {
    seq(|order|, g requires 0 <= g < |order| => Property(order[g], row[g] as real))
  }

  function SizeProperties(strata: seq<Entry>): (r: seq<Property>)
    ensures |r| == |strata| && forall s :: 0 <= s < |r| ==> r[s] == Property(strata[s].key, strata[s].count as real)
  {
    seq(|strata|, s requires 0 <= s < |strata| => Property(strata[s].key, strata[s].count as real))
  }

  function RowsOf(strata: seq<Entry>, order: seq<string>, q: Matrix): (r: seq<QuotaRow>)
    requires |q| == |strata| && Shape(q, |order|)
    ensures |r| == |strata| && forall s :: 0 <= s < |r| ==> r[s] == QuotaRow(strata[s].key, RowProperties(order, q[s]))
  {
    seq(|strata|, s requires 0 <= s < |strata| => QuotaRow(strata[s].key, RowProperties(order, q[s])))
  }

  /** The cells row by row. */
  function CellsOf(strata: seq<Entry>, order: seq<string>, q: Matrix, ideal: Ideals): (r: seq<Cell>)
    requires |q| == |strata| == |ideal| && Shape(q, |order|) && Shape(ideal, |order|)
  {
    if strata == [] then []
    else
      var n := |strata| - 1;
      CellsOf(strata[..n], order, q[..n], ideal[..n]) + RowCells(strata[n].key, order, q[n], ideal[n])
  }

  function RowCells(stratum: string, order: seq<string>, row: seq<int>, ideals: seq<real>): (r: seq<Cell>)
    requires |row| == |order| == |ideals|
    ensures |r| == |order|
    ensures forall g :: 0 <= g < |r| ==> r[g] == Cell(stratum, order[g], row[g] as real, ideals[g])
  {
    seq(|order|, g requires 0 <= g < |order| => Cell(stratum, order[g], row[g] as real, ideals[g]))
  }

  /** The matrix with the column of each entry of the order, repeated groups repeated. */
  function Expand<T>(m: seq<seq<T>>, order: seq<string>): (r: seq<seq<T>>)
    requires Shape(m, |Columns(order)|)
    ensures |r| == |m| && Shape(r, |order|)
    ensures forall s, k :: 0 <= s < |r| && 0 <= k < |order| ==> r[s][k] == m[s][Targets(order)[k]]
  {
    seq(|m|, s requires 0 <= s < |m| =>
      seq(|order|, k requires 0 <= k < |order| && 0 <= s < |m| => m[s][Targets(order)[k]]))
  }

  /** The stored form: a row has each group once, the cells follow the order. */
  function Render(strata: seq<Entry>, order: seq<string>, q: Matrix, ideal: Ideals): Stored
    requires |q| == |strata| == |ideal| && Shape(q, |Columns(order)|) && Shape(ideal, |Columns(order)|)
  {
    Stored(RowsOf(strata, Columns(order), q), CellsOf(strata, order, Expand(q, order), Expand(ideal, order)),
           SizeProperties(strata))
  }

  /** Row and column of a position in the row-by-row list. */
  lemma FlatIndex(s: nat, g: nat, rows: nat, columns: nat)
    requires s < rows && g < columns
    ensures 0 <= s * columns + g < rows * columns
  {
    assert (s + 1) * columns <= rows * columns;
  }

  lemma FlatInjective(s: nat, g: nat, s': nat, g': nat, columns: nat)
    requires g < columns && g' < columns && s * columns + g == s' * columns + g'
    ensures s == s' && g == g'
  {
    if s < s' {
      FlatIndex(s, g, s', columns);
    } else if s' < s {
      FlatIndex(s', g', s, columns);
    }
  }

  lemma {:induction false} CellAt(strata: seq<Entry>, order: seq<string>, q: Matrix, ideal: Ideals, s: nat, g: nat)
    requires |q| == |strata| == |ideal| && Shape(q, |order|) && Shape(ideal, |order|)
    requires s < |strata| && g < |order|
    ensures |CellsOf(strata, order, q, ideal)| == |strata| * |order| > s * |order| + g >= 0
    ensures CellsOf(strata, order, q, ideal)[s * |order| + g]
         == Cell(strata[s].key, order[g], q[s][g] as real, ideal[s][g])
  {
    var n := |strata| - 1;
    FlatIndex(s, g, |strata|, |order|);
    assert |strata| * |order| == n * |order| + |order|;
    if n > 0 {
      CellAt(strata[..n], order, q[..n], ideal[..n], if s < n then s else 0, g);
    }
    if s < n {
      FlatIndex(s, g, n, |order|);
    }
  }

  lemma {:induction false} CellsCount(strata: seq<Entry>, order: seq<string>, q: Matrix, ideal: Ideals)
    requires |q| == |strata| == |ideal| && Shape(q, |order|) && Shape(ideal, |order|)
    ensures |CellsOf(strata, order, q, ideal)| == |strata| * |order|
  {
    if strata != [] {
      var n := |strata| - 1;
      CellsCount(strata[..n], order, q[..n], ideal[..n]);
      assert |strata| * |order| == n * |order| + |order|;
    }
  }

  /** Every position of the list is some row and column. */
  lemma CellOrigin(strata: seq<Entry>, order: seq<string>, q: Matrix, ideal: Ideals, c: nat) returns (s: nat, g: nat)
    requires |q| == |strata| == |ideal| && Shape(q, |order|) && Shape(ideal, |order|)
    requires c < |CellsOf(strata, order, q, ideal)|
    ensures s < |strata| && g < |order| && c == s * |order| + g
    ensures CellsOf(strata, order, q, ideal)[c] == Cell(strata[s].key, order[g], q[s][g] as real, ideal[s][g])
  {
    CellsCount(strata, order, q, ideal);
    s, g := Locate(c, |strata|, |order|);
    CellAt(strata, order, q, ideal, s, g);
  }

  lemma {:induction false} Locate(c: nat, rows: nat, columns: nat) returns (s: nat, g: nat)
    requires c < rows * columns
    ensures s < rows && g < columns && c == s * columns + g
  {
    assert rows * columns == (rows - 1) * columns + columns;
    if c >= (rows - 1) * columns {
      assert rows > 0;
      s, g := rows - 1, c - (rows - 1) * columns;
    } else {
      s, g := Locate(c, rows - 1, columns);
    }
  }

  /** A matrix the solver may store: rows add up, nothing is negative. */
  predicate Storable(strata: seq<Entry>, order: seq<string>, q: Matrix, ideal: Ideals) {
    && |q| == |strata| == |ideal| && Shape(q, |Columns(order)|) && Shape(ideal, |Columns(order)|)
    && DistinctKeys(strata)
    && RowsMatch(Counts(strata), q) && CellsNonNegative(q)
    && (forall s, g :: 0 <= s < |ideal| && 0 <= g < |Columns(order)| ==> ideal[s][g] >= 0.0)
  }

  lemma RowsFine(strata: seq<Entry>, columns: seq<string>, q: Matrix)
    requires |q| == |strata| && Shape(q, |columns|) && CellsNonNegative(q)
    ensures RowsOk(RowsOf(strata, columns, q))
  {
    var rows := RowsOf(strata, columns, q);
    forall i | 0 <= i < |rows| ensures KeySet(rows[i].cells) == (set k | k in columns) && AllWhole(rows[i].cells) {
      forall k | k in columns ensures k in KeySet(rows[i].cells) {
        var g :| 0 <= g < |columns| && columns[g] == k;
        assert rows[i].cells[g].key == k;
      }
    }
  }

  lemma RenderedRows(strata: seq<Entry>, order: seq<string>, q: Matrix, ideal: Ideals)
    requires Storable(strata, order, q, ideal)
    ensures WellFormed(Render(strata, order, q, ideal)) && RowsOk(Render(strata, order, q, ideal).quotas)
  {
    hide Columns, CellsOf, RowsOk, Sum, Expand;
    RowsFine(strata, Columns(order), q);
    RenderedWellFormed(strata, order, q, ideal);
  }

  lemma {:induction false} NonNegativeSum(s: seq<int>)
    requires forall i :: 0 <= i < |s| ==> s[i] >= 0
    ensures Sum(s) >= 0
  {
    if s != [] {
      NonNegativeSum(s[..|s| - 1]);
    }
  }

  lemma RowTotal(columns: seq<string>, row: seq<int>, size: int)
    requires |row| == |columns| && Sum(row) == size && forall g :: 0 <= g < |row| ==> row[g] >= 0
    ensures SumR(Values(RowProperties(columns, row))) == size as real && size >= 0
  {
    assert Values(RowProperties(columns, row)) == Reals(row);
    RealsSum(row);
    NonNegativeSum(row);
  }

  lemma RenderedSizes(strata: seq<Entry>, order: seq<string>, q: Matrix, ideal: Ideals)
    requires Storable(strata, order, q, ideal)
    ensures SizesOk(Render(strata, order, q, ideal))
  {
    hide Columns, CellsOf, Expand, Sum, SumR;
    var st := Render(strata, order, q, ideal);
    forall s | 0 <= s < |strata|
      ensures WholeNonNegative(st.sizes[s].value) && HasRow(st.quotas, st.sizes[s].key)
      ensures Property(st.quotas[s].key, SumR(Values(st.quotas[s].cells))) in st.sizes
    {
      RowTotal(Columns(order), q[s], strata[s].count);
      assert st.sizes[s] == Property(st.quotas[s].key, strata[s].count as real);
      assert st.quotas[s].key == st.sizes[s].key;
    }
  }

  lemma RenderedCellsOk(strata: seq<Entry>, order: seq<string>, q: Matrix, ideal: Ideals)
    requires Storable(strata, order, q, ideal)
    ensures var st := Render(strata, order, q, ideal);
            forall c :: 0 <= c < |st.cells| ==> CellOk(st, st.cells[c])
  {
    hide CellKey, Columns, Sum;
    var st := Render(strata, order, q, ideal);
    forall c | 0 <= c < |st.cells| ensures CellOk(st, st.cells[c]) {
      var s, k := CellOrigin(strata, order, Expand(q, order), Expand(ideal, order), c);
      var g := Targets(order)[k];
      assert st.quotas[s].cells[g] == Property(order[k], q[s][g] as real);
      assert st.sizes[s].key == strata[s].key;
    }
  }

  lemma RenderedComplete(strata: seq<Entry>, order: seq<string>, q: Matrix, ideal: Ideals)
    requires Storable(strata, order, q, ideal)
    ensures Complete(Render(strata, order, q, ideal))
  {
    hide CellKey, Columns, Sum;
    var st := Render(strata, order, q, ideal);
    forall s, g | 0 <= s < |st.quotas| && 0 <= g < |st.quotas[s].cells|
      ensures CellKey(st.quotas[s].key, st.quotas[s].cells[g].key) in CellKeys(st.cells)
    {
      assert Columns(order)[g] in order;
      var k :| 0 <= k < |order| && order[k] == Columns(order)[g];
      CellAt(strata, order, Expand(q, order), Expand(ideal, order), s, k);
      assert st.cells[s * |order| + k] in st.cells;
    }
  }

  predicate KeysDiffer(cells: seq<Cell>) {
    forall c, d :: 0 <= c < d < |cells| ==> KeyOf(cells[c]) != KeyOf(cells[d])
  }

  lemma SameKeySameCell(strata: seq<Entry>, order: seq<string>, q: Matrix, ideal: Ideals, s: nat, g: nat, s': nat,
                        g': nat)
    requires |q| == |strata| == |ideal| && Shape(q, |order|) && Shape(ideal, |order|)
    requires KeysDiffer(CellsOf(strata, order, q, ideal))
    requires s < |strata| && g < |order| && s' < |strata| && g' < |order|
    requires CellKey(strata[s].key, order[g]) == CellKey(strata[s'].key, order[g'])
    ensures s == s' && g == g'
  {
    hide CellKey, CellsOf;
    CellAt(strata, order, q, ideal, s, g);
    CellAt(strata, order, q, ideal, s', g');
    var c, d := s * |order| + g, s' * |order| + g';
    assert c < d || d < c || c == d;
    FlatInjective(s, g, s', g', |order|);
  }

  /** The keys of the cells differ exactly when the concatenated keys tell cells apart. */
  lemma RenderedKeys(strata: seq<Entry>, order: seq<string>, q: Matrix, ideal: Ideals)
    requires |q| == |strata| == |ideal| && Shape(q, |order|) && Shape(ideal, |order|)
    ensures KeysDiffer(CellsOf(strata, order, q, ideal)) <==> KeysInjective(Keys(strata), order)
  {
    hide CellKey, CellsOf;
    var cells, keys := CellsOf(strata, order, q, ideal), Keys(strata);
    if KeysDiffer(cells) {
      forall s, g, s', g' | 0 <= s < |keys| && 0 <= g < |order| && 0 <= s' < |keys| && 0 <= g' < |order|
        && CellKey(keys[s], order[g]) == CellKey(keys[s'], order[g'])
        ensures s == s' && g == g'
      {
        SameKeySameCell(strata, order, q, ideal, s, g, s', g');
      }
    } else {
      var c, d :| 0 <= c < d < |cells| && KeyOf(cells[c]) == KeyOf(cells[d]);
      var s, g := CellOrigin(strata, order, q, ideal, c);
      var s', g' := CellOrigin(strata, order, q, ideal, d);
      assert CellKey(keys[s], order[g]) == CellKey(keys[s'], order[g']);
    }
  }

  /** The store accepts a computed matrix exactly when the concatenated keys do not clash. */
  lemma ComputedAccepted(strata: seq<Entry>, order: seq<string>, q: Matrix, ideal: Ideals)
    requires Storable(strata, order, q, ideal)
    ensures WellFormed(Render(strata, order, q, ideal))
    ensures Accepts(Render(strata, order, q, ideal)) <==> KeysInjective(Keys(strata), order)
  {
    hide KeyOf, CellOk, RowsOk, SizesOk, KeysInjective, CellsOf, Columns;
    RenderedRows(strata, order, q, ideal);
    RenderedSizes(strata, order, q, ideal);
    RenderedCellsOk(strata, order, q, ideal);
    RenderedComplete(strata, order, q, ideal);
    RenderedKeys(strata, order, Expand(q, order), Expand(ideal, order));
  }

  /** Colon-free stratum keys and an order without repetition are enough. */
  lemma ColonFreeAccepted(strata: seq<Entry>, order: seq<string>, q: Matrix, ideal: Ideals)
    requires Storable(strata, order, q, ideal) && Distinct(order)
    requires forall s :: 0 <= s < |strata| ==> ColonFree(strata[s].key)
    ensures Accepts(Render(strata, order, q, ideal))
  {
    ComputedAccepted(strata, order, q, ideal);
    ColonFreeInjective(Keys(strata), order);
  }

  /** The ideals of the columns of a valid input. */
  function ColumnIdeals(strata: seq<Entry>, groups: seq<Entry>, order: seq<string>, total: int): (m: Ideals)
    requires ValidInput(strata, groups, order, total)
    ensures |m| == |strata| && Shape(m, |Columns(order)|)
  {
    IdealMatrix(Counts(strata), Required(groups, order), total)
  }

  /** `st` is the stored form of the matrix with the ideals of its input. */
  ghost predicate IsRendering(st: Stored, strata: seq<Entry>, groups: seq<Entry>, order: seq<string>, total: int,
                              q: Matrix) {
    && ValidInput(strata, groups, order, total) && |q| == |strata| && Shape(q, |Columns(order)|)
    && st == Render(strata, order, q, ColumnIdeals(strata, groups, order, total))
  }

  /** The row phase already leaves the right columns. */
  ghost predicate RowsSuffice(strata: seq<Entry>, groups: seq<Entry>, order: seq<string>, total: int, q: Matrix) {
    RowPhase(strata, groups, order, total, q) && ColumnsMatch(ColumnCounts(groups, order), q)
  }

  /** The solver followed by the store's check. */
  method ComputeAndCheck(strata: seq<Entry>, groups: seq<Entry>, order: seq<string>, total: int)
    returns (r: Result<Stored, QuotaError>, ok: bool, ghost last: Matrix)
    requires DistinctKeys(strata) && DistinctKeys(groups)
    ensures r.Ok? ==> IsRendering(r.value, strata, groups, order, total, last)
    ensures r.Ok? ==> (ok <==> Accepts(r.value))
    ensures r.Ok? && Covers(groups, order) ==> (ok <==> KeysInjective(Keys(strata), order))
    ensures ValidInput(strata, groups, order, total) && Regular(strata, groups, order) ==>
              (Convergent(|strata|, |order|) ==> r.Ok? && ok)
    ensures Covers(groups, order) ==>
              forall q :: RowsSuffice(strata, groups, order, total, q) ==> r.Ok? && last == q
  {
    hide KeysInjective, Sum, CellsNonNegative, Stuck, Steady, Convergent, ColumnsMatch, BelowCeiling, AboveFloor,
         Columns,
         Col, Apportioned, Accepts, WellFormed, RowsMatch, RowsApportioned, DistinctKeys, Distinct, CountOf, Traced;
    var computed;
    ghost var path;
    computed, last, path := ComputeStratifiedQuotas(strata, groups, order, total);
    if computed.Err? {
      return Err(computed.error), false, last;
    }
    var q := computed.value;
    var ideal := ColumnIdeals(strata, groups, order, total);
    IdealsNonNegative(strata, groups, order, total);
    var st := Render(strata, order, q, ideal);
    RenderedWellFormed(strata, order, q, ideal);
    if Covers(groups, order) {
      ComputedAccepted(strata, order, q, ideal);
    }
    r := Ok(st);
    ok := IsStoredStratification(st);
  }

  lemma IdealsNonNegative(strata: seq<Entry>, groups: seq<Entry>, order: seq<string>, total: int)
    requires ValidInput(strata, groups, order, total)
    ensures var ideal := ColumnIdeals(strata, groups, order, total);
            forall s, g :: 0 <= s < |ideal| && 0 <= g < |Columns(order)| ==> ideal[s][g] >= 0.0
  {
    hide Share, Sum, Columns;
    var ideal, counts := ColumnIdeals(strata, groups, order, total), Required(groups, order);
    RequiredNonNegative(groups, order);
    forall s, g | 0 <= s < |ideal| && 0 <= g < |Columns(order)| ensures ideal[s][g] >= 0.0 {
      ShareNonNegative(Counts(strata)[s] as real, counts[g] as real, total as real);
    }
  }

  lemma RenderedWellFormed(strata: seq<Entry>, order: seq<string>, q: Matrix, ideal: Ideals)
    requires |q| == |strata| == |ideal| && Shape(q, |Columns(order)|) && Shape(ideal, |Columns(order)|)
    requires DistinctKeys(strata)
    ensures WellFormed(Render(strata, order, q, ideal))
  {
    hide Columns;
  }

  // ---------------------------------------------------------------------------------
  // A result that is refused
  // ---------------------------------------------------------------------------------

  const CLASHING_STRATA := [Entry("a", 1), Entry("a:b", 1)]
  const CLASHING_GROUPS := [Entry("b:c", 2), Entry("c", 0)]
  const CLASHING_ORDER := ["b:c", "c"]

  lemma ClashingInput()
    ensures DistinctKeys(CLASHING_STRATA) && DistinctKeys(CLASHING_GROUPS) && Distinct(CLASHING_ORDER)
    ensures Covers(CLASHING_GROUPS, CLASHING_ORDER)
    ensures ValidInput(CLASHING_STRATA, CLASHING_GROUPS, CLASHING_ORDER, 2)
    ensures ColumnCounts(CLASHING_GROUPS, CLASHING_ORDER) == [2, 0]
    ensures Counts(CLASHING_STRATA) == [1, 1]
  {
    hide CountOf;
    CountsSum(Counts(CLASHING_STRATA));
    CountsSum(Counts(CLASHING_GROUPS));
    assert CLASHING_GROUPS[0].key == CLASHING_ORDER[0] && CLASHING_GROUPS[1].key == CLASHING_ORDER[1];
    assert "b:c" != "c" by { assert |"b:c"| != |"c"|; }
    assert "a" != "a:b" by { assert |"a"| != |"a:b"|; }
    CountOfUnique(CLASHING_GROUPS, 0);
    CountOfUnique(CLASHING_GROUPS, 1);
  }

  lemma ClashingKeys()
    ensures !KeysInjective(Keys(CLASHING_STRATA), CLASHING_ORDER)
  {
    var keys := Keys(CLASHING_STRATA);
    assert CellKey(keys[0], CLASHING_ORDER[0]) == "a:b:c" == CellKey(keys[1], CLASHING_ORDER[1]);
  }

  lemma ClashingRows()
    ensures RowPhase(CLASHING_STRATA, CLASHING_GROUPS, CLASHING_ORDER, 2, [[1, 0], [1, 0]])
    ensures ColumnsMatch([2, 0], [[1, 0], [1, 0]])
  {
    hide ValidInput, Col, ColumnCounts, Counts, Sum;
    ClashingInput();
    var m: Matrix := [[1, 0], [1, 0]];
    var r := IdealRow(1, [2, 0], 2);
    assert |r| == 2 && r[0] == Share(1.0, 2.0, 2.0) && r[1] == Share(1.0, 0.0, 2.0);
    assert r == [1.0, 0.0];
    assert Apportioned(r, [1, 0]);
    CountsSum([1, 0]);
    assert Col(m, 0) == 2 && Col(m, 1) == 0 by { ClashingColumns(); }
  }

  lemma ClashingColumns()
    ensures Col([[1, 0], [1, 0]], 0) == 2 && Col([[1, 0], [1, 0]], 1) == 0
  {
    var m: Matrix := [[1, 0], [1, 0]];
    assert m[..1] == [[1, 0]] && m[..1][..0] == [];
    assert Col(m[..1], 0) == 1 && Col(m[..1], 1) == 0;
  }

  /** With colons the store can refuse what the solver returned: two cells share the key "a:b:c". */
  method ColonClash() returns (r: Result<Stored, QuotaError>, ok: bool)
    ensures r.Ok? && !ok && !Accepts(r.value)
  {
    hide ValidInput, KeysInjective, DistinctKeys, Distinct, Covers, Accepts, RowPhase, ColumnsMatch, Counts,
         ColumnCounts;
    ClashingInput();
    ClashingKeys();
    ClashingRows();
    assert RowsSuffice(CLASHING_STRATA, CLASHING_GROUPS, CLASHING_ORDER, 2, [[1, 0], [1, 0]]);
    ghost var last;
    r, ok, last := ComputeAndCheck(CLASHING_STRATA, CLASHING_GROUPS, CLASHING_ORDER, 2);
  }
}
