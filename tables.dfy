/** The rectangular tables that travel through the upload: the grid pandas builds
    from the active sheet of a workbook, the block sent to Google Sheets, and the
    contents of a destination tab. */
module Tables {

  /** One cell value as openpyxl reads it; `Empty` is the `None` of an unused cell. */
  datatype Cell = Empty | Text(text: string) | Number(number: real) | Flag(flag: bool)

  /** The column count of a grid: that of its first row, 0 for no rows. */
  function Width(rows: seq<seq<Cell>>): nat {
    if |rows| == 0 then 0 else |rows[0]|
  }

  /** pandas pads every row of a DataFrame to the same width. */
  predicate IsRectangular(rows: seq<seq<Cell>>) {
    forall i :: 0 <= i < |rows| ==> |rows[i]| == Width(rows)
  }

  type Table = rows: seq<seq<Cell>> | IsRectangular(rows) witness []

  /** The contents of a tab just cleared. */
  const Blank: Table := []

  /** The grid limits of the destination service (app.py:55, main.py:105). */
  const MaxRows: nat := 1086
  const MaxCols: nat := 56

  function Min(a: nat, b: nat): nat {
    if a <= b then a else b
  }

  function Max(a: nat, b: nat): nat {
    if a <= b then b else a
  }

  /** `df.iloc[:min(rows, 1086), :min(cols, 56)]` (app.py:55-56, main.py:105-106):
      the top-left corner of the table within the service's limits. Rows whose
      cells are all empty are kept. */
  function Bound(t: Table): (r: Table)
    ensures |r| == Min(|t|, MaxRows)
    ensures Width(r) == Min(Width(t), MaxCols)
    ensures forall i, j :: 0 <= i < |r| && 0 <= j < Width(r) ==> r[i][j] == t[i][j]
  {
    var rows := Min(|t|, MaxRows);
    var cols := Min(Width(t), MaxCols);
    seq(rows, i requires 0 <= i < rows => t[i][..cols])
  }

  /** Two tables with the same shape and the same cells are the same table. */
  lemma SameCells(a: Table, b: Table)
    requires |a| == |b| && Width(a) == Width(b)
    requires forall i, j :: 0 <= i < |a| && 0 <= j < Width(a) ==> a[i][j] == b[i][j]
    ensures a == b
  {
    forall i | 0 <= i < |a| ensures a[i] == b[i] {
      assert |a[i]| == Width(a) && |b[i]| == Width(b);
    }
  }

  /** Bounding twice gives what bounding once gives. */
  lemma BoundIdempotent(t: Table)
    ensures Bound(Bound(t)) == Bound(t)
  {
    SameCells(Bound(Bound(t)), Bound(t));
  }

  /** A table passes through unchanged exactly when it is within the limits. */
  lemma BoundIsIdentityIffWithinLimits(t: Table)
    ensures Bound(t) == t <==> |t| <= MaxRows && Width(t) <= MaxCols
  {
    if |t| <= MaxRows && Width(t) <= MaxCols {
      SameCells(Bound(t), t);
    }
  }

  /** A row of unused cells between two others survives bounding. */
  lemma BoundKeepsBlankRows()
    ensures var t := [[Text("a"), Text("b")], [Empty, Empty], [Text("c"), Text("d")]];
            IsRectangular(t) && Bound(t) == t
  {
    var t: Table := [[Text("a"), Text("b")], [Empty, Empty], [Text("c"), Text("d")]];
    BoundIsIdentityIffWithinLimits(t);
  }

  /** The cell at row `i`, column `j` of a grid, or `Empty` outside it. */
  function CellAt(t: Table, i: nat, j: nat): Cell {
    if i < |t| && j < Width(t) then t[i][j] else Empty
  }

  /** The values a tab holds after `worksheet.update_values(crange='A1', values=block)`:
      every cell of the block that holds a value overwrites the value from the top-left
      cell, and an `Empty` cell of the block (a `None` value) leaves the tab's value as
      it was, as do cells outside the block. The result spans both, as a table of values; the size of the
      tab's grid, and a service refusing a block larger than it, are not modelled. */
  function WriteAtOrigin(current: Table, block: Table): (r: Table)
    ensures |r| == Max(|current|, |block|)
    ensures |r| > 0 ==> Width(r) == Max(Width(current), Width(block))
    ensures forall i, j :: 0 <= i < |block| && 0 <= j < Width(block) && block[i][j] != Empty ==>
              r[i][j] == block[i][j]
    ensures forall i, j :: 0 <= i < |block| && 0 <= j < Width(block) && block[i][j] == Empty ==>
              r[i][j] == CellAt(current, i, j)
    ensures forall i, j :: 0 <= i < |r| && 0 <= j < Width(r) && !(i < |block| && j < Width(block)) ==>
              r[i][j] == CellAt(current, i, j)
  {
    var rows := Max(|current|, |block|);
    var cols := Max(Width(current), Width(block));
    seq(rows, i requires 0 <= i < rows =>
      seq(cols, j requires 0 <= j < cols =>
        if i < |block| && j < Width(block) && block[i][j] != Empty then block[i][j]
        else CellAt(current, i, j)))
  }

  /** On a cleared tab the write at A1 leaves exactly the block (app.py:57-58,
      main.py:107-108). */
  lemma WriteOnClearedTab(block: Table)
    ensures WriteAtOrigin(Blank, block) == block
  {
    var r := WriteAtOrigin(Blank, block);
    assert |r| == |block|;
    if |block| > 0 {
      SameCells(r, block);
    }
  }

  /** Without the clear, cells beyond the block survive the write: a one-cell block
      written over a two-cell tab leaves the second cell stale. */
  lemma WriteWithoutClearKeepsStaleCells()
    ensures WriteAtOrigin([[Text("old"), Text("stale")]], [[Text("new")]]) == [[Text("new"), Text("stale")]]
  {
    var r := WriteAtOrigin([[Text("old"), Text("stale")]], [[Text("new")]]);
    assert |r| == 1 && Width(r) == 2;
    assert r[0][0] == Text("new");
    assert r[0][1] == Text("stale");
    SameCells(r, [[Text("new"), Text("stale")]]);
  }

  /** An unused cell of the block does not blank the tab's value under it: writing
      `[[None, "new"]]` over `[["old", "stale"]]` keeps "old". */
  lemma WriteSkipsEmptyCells()
    ensures WriteAtOrigin([[Text("old"), Text("stale")]], [[Empty, Text("new")]]) == [[Text("old"), Text("new")]]
  {
    var r := WriteAtOrigin([[Text("old"), Text("stale")]], [[Empty, Text("new")]]);
    assert |r| == 1 && Width(r) == 2;
    assert r[0][0] == Text("old");
    assert r[0][1] == Text("new");
    SameCells(r, [[Text("old"), Text("new")]]);
  }
}
