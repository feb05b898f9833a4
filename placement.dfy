/**
 * Where each icon goes: icon i takes column i % p and row i / p of the grid
 * (row-major order) and is translated to the top-left corner of that cell.
 */
module GridPlacement {
  import opened GridLayout

  /** A grid cell, by column and row. */
  datatype Cell = Cell(col: nat, row: nat)

  /** A translation in viewBox units. */
  datatype Offset = Offset(x: int, y: int)

  /** The cell of icon `index`: cells are filled row by row, p to a row. */
  function CellOf(index: nat, p: PerLine): (c: Cell)
    ensures c.col < p
    ensures index == c.row * p + c.col
  {
    Cell(index % p, index / p)
  }

  /** Top-left corner of a cell. */
  function CellOffset(c: Cell): (o: Offset)
    ensures o.x >= 0 && o.y >= 0
    ensures o.x % GridSize == 0 && o.y % GridSize == 0
    ensures o.x / GridSize == c.col && o.y / GridSize == c.row
  {
    Offset(c.col * GridSize, c.row * GridSize)
  }

  /** The translation given to icon `index`. */
  function OffsetOf(index: nat, p: PerLine): (o: Offset)
    ensures o == Offset((index % p) * GridSize, (index / p) * GridSize)
  {
    CellOffset(CellOf(index, p))
  }

  /** The icon index whose cell starts at a given translation. */
  function IndexAt(o: Offset, p: PerLine): int
  {
    (o.y / GridSize) * p + o.x / GridSize
  }

  /** The cell is determined by the index and determines it back. */
  lemma {:induction false} CellOfUnique(index: nat, p: PerLine, c: Cell)
    requires c.col < p && index == c.row * p + c.col
    ensures CellOf(index, p) == c
  {
    var d := CellOf(index, p);
    if d.row < c.row {
      MulMonotone(d.row + 1, c.row, p);
    } else if d.row > c.row {
      MulMonotone(c.row + 1, d.row, p);
    }
  }

  /** The translation can be read back as the icon's index. */
  lemma {:induction false} IndexAtOffsetOf(index: nat, p: PerLine)
    ensures IndexAt(OffsetOf(index, p), p) == index
  {
  }

  /** Distinct icons never share a translation. */
  lemma {:induction false} OffsetOfInjective(i: nat, j: nat, p: PerLine)
    requires i != j
    ensures OffsetOf(i, p) != OffsetOf(j, p)
  {
  }

  /** Of n icons, every one lies in a used column and an existing row. */
  lemma {:induction false} CellInGrid(index: nat, n: nat, p: PerLine)
    requires index < n
    ensures CellOf(index, p).col < ColumnCount(n, p)
    ensures CellOf(index, p).row < RowCount(n, p)
  {
    var c := CellOf(index, p);
    var rows := RowCount(n, p);
    if c.row >= rows {
      MulMonotone(rows, c.row, p);
    }
  }

  /** The 256 by 256 visible area of every placed icon lies inside the viewBox. */
  lemma {:induction false} OffsetInViewBox(index: nat, n: nat, p: PerLine)
    requires index < n
    ensures 0 <= OffsetOf(index, p).x && OffsetOf(index, p).x + IconExtent <= RawWidth(n, p)
    ensures 0 <= OffsetOf(index, p).y && OffsetOf(index, p).y + IconExtent <= RawHeight(n, p)
  {
    CellInGrid(index, n, p);
  }

  /**
   * The viewBox is no larger than the icons need: some icon touches its right
   * edge and some icon touches its bottom edge.
   */
  lemma {:induction false} ViewBoxIsTight(n: nat, p: PerLine)
    requires n >= 1
    ensures OffsetOf(ColumnCount(n, p) - 1, p).x + IconExtent == RawWidth(n, p)
    ensures OffsetOf(n - 1, p).y + IconExtent == RawHeight(n, p)
  {
    var cols := ColumnCount(n, p);
    CellOfUnique(cols - 1, p, Cell(cols - 1, 0));
    var rows := RowCount(n, p);
    CellOfUnique(n - 1, p, Cell(n - 1 - (rows - 1) * p, rows - 1));
  }

  /** Visible areas of two distinct icons do not overlap. */
  lemma {:induction false} VisibleAreasDisjoint(i: nat, j: nat, p: PerLine)
    requires i != j
    ensures var a, b := OffsetOf(i, p), OffsetOf(j, p);
      a.x + IconExtent <= b.x || b.x + IconExtent <= a.x ||
      a.y + IconExtent <= b.y || b.y + IconExtent <= a.y
  {
  }

  /** Cells are filled in reading order: left to right, then top to bottom. */
  lemma {:induction false} CellsRowMajor(i: nat, j: nat, p: PerLine)
    requires i < j
    ensures var a, b := CellOf(i, p), CellOf(j, p);
      a.row < b.row || (a.row == b.row && a.col < b.col)
  {
    var a, b := CellOf(i, p), CellOf(j, p);
    if a.row > b.row {
      MulMonotone(b.row + 1, a.row, p);
    }
  }

  /** Hence translations grow in reading order too. */
  lemma {:induction false} OffsetsRowMajor(i: nat, j: nat, p: PerLine)
    requires i < j
    ensures var a, b := OffsetOf(i, p), OffsetOf(j, p);
      a.y < b.y || (a.y == b.y && a.x < b.x)
  {
    CellsRowMajor(i, j, p);
  }

  lemma MulMonotone(x: nat, y: nat, p: nat)
    requires x <= y
    ensures x * p <= y * p
  {
  }

  /** With 16 icons in rows of 15, the 16th (index 15) starts the second row. */
  lemma WrapExample()
    ensures OffsetOf(0, IconsPerLine) == Offset(0, 0)
    ensures OffsetOf(14, IconsPerLine) == Offset(4200, 0)
    ensures OffsetOf(15, IconsPerLine) == Offset(0, 300)
  {
  }
}
