/**
 * Size of the composite image: the viewBox (raw) size from the icon count and
 * the grid constants, and the displayed size scaled by 48/256.
 */
module GridLayout {

  /** A number of icons per grid row; the composer's setting is IconsPerLine. */
  type PerLine = p: nat | p > 0 witness 15

  const IconsPerLine: PerLine := 15
  /** Side of the square grid cell each icon occupies, in viewBox units. */
  const GridSize: nat := 300
  /** Side, in display units, that one icon should appear at. */
  const IconViewSize: nat := 48
  /** Margin trimmed off the raw grid size. */
  const PaddingOffset: nat := 44

  /** Side of the visible part of one cell: 300 - 44 = 256. */
  const IconExtent: nat := GridSize - PaddingOffset

  function Min(a: int, b: int): (m: int)
    ensures m <= a && m <= b && (m == a || m == b)
  {
    if a <= b then a else b
  }

  /** Number of grid rows: the ceiling of n / p, as integer division. */
  function RowCount(n: nat, p: PerLine): (rows: nat)
    ensures rows * p >= n
    ensures n == 0 ==> rows == 0
    ensures n > 0 ==> (rows - 1) * p < n
  {
    (n + p - 1) / p
  }

  /** Number of grid columns that hold an icon: a part-filled single row reserves no empty width. */
  function ColumnCount(n: nat, p: PerLine): (cols: nat)
    ensures cols <= p && cols <= n
    ensures cols == n || cols == p
  {
    Min(n, p)
  }

  /** Width of the viewBox: min(p * 300, n * 300) - 44. */
  function RawWidth(n: nat, p: PerLine): (w: int)
    ensures w + PaddingOffset == ColumnCount(n, p) * GridSize
  {
    Min(p * GridSize, n * GridSize) - PaddingOffset
  }

  /** Height of the viewBox: ceil(n / p) * 300 - 44. */
  function RawHeight(n: nat, p: PerLine): (h: int)
    ensures h + PaddingOffset == RowCount(n, p) * GridSize
  {
    RowCount(n, p) * GridSize - PaddingOffset
  }

  /** The display scale: 48 / (300 - 44). */
  function Scale(): (s: real)
    ensures 16.0 * s == 3.0
  {
    IconViewSize as real / (GridSize - PaddingOffset) as real
  }

  /** The computed size of one composite image. */
  datatype Layout = Layout(rawWidth: int, rawHeight: int, width: real, height: real)

  function ComputeLayout(n: nat, p: PerLine): (l: Layout)
    ensures l.rawWidth == RawWidth(n, p) && l.rawHeight == RawHeight(n, p)
    ensures 16.0 * l.width == 3.0 * l.rawWidth as real
    ensures 16.0 * l.height == 3.0 * l.rawHeight as real
  {
    var rawWidth := RawWidth(n, p);
    var rawHeight := RawHeight(n, p);
    Layout(rawWidth, rawHeight, rawWidth as real * Scale(), rawHeight as real * Scale())
  }

  /** The width switches at n == p: one part-filled row, or p full columns. */
  lemma RawWidthCases(n: nat, p: PerLine)
    ensures n <= p ==> RawWidth(n, p) == n * 300 - 44
    ensures n > p ==> RawWidth(n, p) == p * 300 - 44
  {
  }

  /**
   * RowCount is Math.ceil(n / p): the least whole number of rows that is at
   * least the exact quotient.
   */
  lemma {:induction false} RowCountIsCeiling(n: nat, p: PerLine)
    ensures n as real / p as real <= RowCount(n, p) as real
    ensures RowCount(n, p) as real < n as real / p as real + 1.0
  {
    var rows := RowCount(n, p);
    var rn, rp, rr := n as real, p as real, rows as real;
    assert rr * rp >= rn;
    assert (rr - 1.0) * rp < rn by {
      if n > 0 {
        assert ((rows - 1) * p) as real < rn;
      }
    }
    QuotientBounds(rn, rp, rr);
  }

  /** Bounds on an exact quotient from bounds on a product. */
  lemma QuotientBounds(a: real, c: real, r: real)
    requires c > 0.0
    requires r * c >= a && (r - 1.0) * c < a
    ensures a / c <= r < a / c + 1.0
  {
    var q := a / c;
    assert q * c == a;
    if q > r {
      ProductPositive(q - r, c);
    }
    if r - 1.0 >= q {
      ProductNonNegative(r - 1.0 - q, c);
    }
  }

  lemma ProductNonNegative(x: real, y: real)
    requires x >= 0.0 && y >= 0.0
    ensures x * y >= 0.0
  {
  }

  lemma ProductPositive(x: real, y: real)
    requires x > 0.0 && y > 0.0
    ensures x * y > 0.0
  {
  }

  /** For at least one icon the image is at least one visible cell in each direction. */
  lemma {:induction false} RawSizeAtLeastOneCell(n: nat, p: PerLine)
    requires n >= 1
    ensures RawWidth(n, p) >= IconExtent
    ensures RawHeight(n, p) >= IconExtent
  {
  }

  /** Each row holds at most p icons, and only the last row can be part-filled. */
  lemma {:induction false} LastRowOccupancy(n: nat, p: PerLine)
    requires n >= 1
    ensures 1 <= n - (RowCount(n, p) - 1) * p <= p
  {
  }

  /** Fifteen icons in rows of fifteen: one full row. */
  lemma FifteenIconsExample()
    ensures ComputeLayout(15, IconsPerLine).rawWidth == 4456
    ensures ComputeLayout(15, IconsPerLine).rawHeight == 256
    ensures ComputeLayout(15, IconsPerLine).width == 835.5
    ensures ComputeLayout(15, IconsPerLine).height == 48.0
  {
  }

  /** Sixteen icons in rows of fifteen: the sixteenth wraps onto a second row. */
  lemma SixteenIconsExample()
    ensures ComputeLayout(16, IconsPerLine).rawWidth == 4456
    ensures ComputeLayout(16, IconsPerLine).rawHeight == 556
    ensures ComputeLayout(16, IconsPerLine).height == 104.25
  {
  }
}
