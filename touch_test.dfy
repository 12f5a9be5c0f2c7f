/** The touch-screen test: a 15 × 10 grid of cells laid over the screen; a
    drag marks the cell under the finger, and the test completes once every
    cell has been touched. Touch coordinates are `Float` pixels, modelled as
    reals; the size of the pointer-input region is whole pixels. */
module TouchTest {
  import opened Numerics

  const ROWS: int := 15
  const COLS: int := 10
  const TOTAL_CELLS: int := ROWS * COLS

  /** The index the grid gives the cell in row `r`, column `c`. */
  function CellAt(r: int, c: int): int
  {
    r * COLS + c
  }

  predicate InGrid(r: int, c: int) { 0 <= r < ROWS && 0 <= c < COLS }

  /** Row-major numbering is a bijection from the grid onto [0, 150). */
  lemma CellAtBijective(r: int, c: int, r': int, c': int)
    requires InGrid(r, c) && InGrid(r', c')
    ensures 0 <= CellAt(r, c) < TOTAL_CELLS
    ensures CellAt(r, c) == CellAt(r', c') ==> r == r' && c == c'
  {
  }

  lemma CellAtOnto(i: int)
    requires 0 <= i < TOTAL_CELLS
    ensures InGrid(i / COLS, i % COLS) && CellAt(i / COLS, i % COLS) == i
  {
  }

  /** One coordinate as the drag handler in the source computes it: the cell
      size is the region size divided by the count in whole pixels
      (`IntSize.width / cols`), then the position is divided by it as a
      `Float`, truncated with `toInt()` and clamped with `coerceIn`. */
  function AxisAsWritten(pos: real, sizePx: nat, count: nat): (k: int)
    requires count > 0
    ensures 0 <= k < count
  {
    CoerceIn(ToInt(Div(pos, (sizePx / count) as real)), 0, count - 1)
  }

  function CellIndexAsWritten(x: real, y: real, widthPx: nat, heightPx: nat): (i: int)
    ensures 0 <= i < TOTAL_CELLS
  {
    CellAtBijective(AxisAsWritten(y, heightPx, ROWS), AxisAsWritten(x, widthPx, COLS), 0, 0);
    CellAt(AxisAsWritten(y, heightPx, ROWS), AxisAsWritten(x, widthPx, COLS))
  }

  /** One coordinate with the cell size the canvas draws with: the region
      size divided by the count as a `Float`. */
  function Axis(pos: real, sizePx: nat, count: nat): (k: int)
    requires count > 0
    ensures 0 <= k < count
  {
    CoerceIn(ToInt(Div(pos, sizePx as real / count as real)), 0, count - 1)
  }

  lemma AxisInside(pos: real, sizePx: nat, count: nat)
    requires count > 0 && IsInt(count) && sizePx > 0 && 0.0 <= pos < sizePx as real
    ensures var cell := sizePx as real / count as real;
            var t := Trunc(pos / cell);
            0 <= t < count && IsInt(t) && t as real * cell <= pos < (t + 1) as real * cell
  {
    var cell := sizePx as real / count as real;
    var q := pos / cell;
    QuotientBelow(pos, sizePx as real, count as real);
    var t := Trunc(q);
    ScaleBounds(t as real, q, (t + 1) as real, cell);
    assert q * cell == pos;
    assert t as real < count as real;
    assert q * cell < (t + 1) as real * cell;
    assert pos < (t + 1) as real * cell;
  }

  lemma QuotientBelow(p: real, w: real, n: real)
    requires w > 0.0 && n > 0.0 && 0.0 <= p < w
    ensures 0.0 <= p / (w / n) < n
  {
    var q := p / (w / n);
    assert q == p * n / w;
    assert q * w == p * n;
    assert p * n < w * n;
  }

  lemma ScaleBounds(lo: real, q: real, hi: real, c: real)
    requires c > 0.0 && lo <= q < hi
    ensures lo * c <= q * c < hi * c
  {
  }

  /** The cell under a touch at (x, y), in the grid that is drawn. */
  function CellIndex(x: real, y: real, widthPx: nat, heightPx: nat): (i: int)
    ensures 0 <= i < TOTAL_CELLS
    ensures i / COLS == Axis(y, heightPx, ROWS) && i % COLS == Axis(x, widthPx, COLS)
  {
    CellAtBijective(Axis(y, heightPx, ROWS), Axis(x, widthPx, COLS), 0, 0);
    CellAt(Axis(y, heightPx, ROWS), Axis(x, widthPx, COLS))
  }

  /** Position `pos` lies in the `k`-th of `count` equal cells drawn across
      `sizePx` pixels. */
  predicate InDrawnCell(pos: real, k: int, sizePx: nat, count: nat)
    requires count > 0
  {
    var cell := sizePx as real / count as real;
    k as real * cell <= pos < (k + 1) as real * cell
  }

  /** Every touch, on screen or off it, maps to one of the 150 cells; a touch
      inside the region lands in the cell whose drawn rectangle contains it. */
  lemma CellIndexIsDrawnCell(x: real, y: real, widthPx: nat, heightPx: nat)
    requires widthPx > 0 && heightPx > 0
    requires 0.0 <= x < widthPx as real && 0.0 <= y < heightPx as real
    ensures var i := CellIndex(x, y, widthPx, heightPx);
            0 <= i < TOTAL_CELLS &&
            InDrawnCell(x, i % COLS, widthPx, COLS) && InDrawnCell(y, i / COLS, heightPx, ROWS)
  {
    AxisIsDrawnCell(x, widthPx, COLS);
    AxisIsDrawnCell(y, heightPx, ROWS);
  }

  lemma AxisIsDrawnCell(pos: real, sizePx: nat, count: nat)
    requires count > 0 && IsInt(count) && sizePx > 0 && 0.0 <= pos < sizePx as real
    ensures InDrawnCell(pos, Axis(pos, sizePx, count), sizePx, count)
  {
    AxisInside(pos, sizePx, count);
  }

  /** On a region 1085 pixels wide, a touch at x = 540 is inside drawn
      column 4 (which spans 434 to 542.5) but the drag handler marks column 5,
      because it divides by the whole-pixel cell width 108. */
  lemma AsWrittenMarksNeighbour()
    ensures CellIndexAsWritten(540.0, 0.0, 1085, 1500) == 5
    ensures CellIndex(540.0, 0.0, 1085, 1500) == 4
  {
    assert Div(540.0, (1085 / 10) as real) == Finite(5.0);
    assert Trunc(5.0) == 5;
    assert Div(540.0, 1085 as real / 10 as real) == Finite(540.0 / 108.5);
    assert 4.0 <= 540.0 / 108.5 < 5.0;
    assert Trunc(540.0 / 108.5) == 4;
    assert Div(0.0, (1500 / 15) as real) == Finite(0.0);
    assert Div(0.0, 1500 as real / 15 as real) == Finite(0.0);
  }

  /** When the region divides into whole-pixel cells, the drag handler's
      division agrees with the canvas's, so the marked cell is the drawn one. */
  lemma AsWrittenAgreesOnWholeCells(x: real, y: real, widthPx: nat, heightPx: nat)
    requires widthPx % COLS == 0 && heightPx % ROWS == 0
    ensures CellIndexAsWritten(x, y, widthPx, heightPx) == CellIndex(x, y, widthPx, heightPx)
  {
    WholeCellSize(widthPx, COLS);
    WholeCellSize(heightPx, ROWS);
  }

  lemma WholeCellSize(sizePx: nat, count: nat)
    requires count > 0 && sizePx % count == 0
    ensures (sizePx / count) as real == sizePx as real / count as real
  {
    var q := sizePx / count;
    assert sizePx == q * count;
    assert sizePx as real == q as real * count as real;
  }

  /** The overlay's state: the set of touched cells (a Compose state variable
      reassigned by every drag event) and the number of times `onComplete`
      has been called by the effect keyed on the set's size. */
  class TouchTestOverlay {
    var touchedCells: set<int>
    var completions: nat

    ghost predicate Valid()
      reads this
    {
      (forall i :: i in touchedCells ==> 0 <= i < TOTAL_CELLS) &&
      completions == (if |touchedCells| >= TOTAL_CELLS then 1 else 0)
    }

    constructor ()
      ensures Valid() && touchedCells == {} && completions == 0
    {
      touchedCells := {};
      completions := 0;
    }

    /** A drag event at (x, y), as the source handles it: the cell the
        whole-pixel division picks joins the set; when the size changes and
        reaches the total, `onComplete` fires. */
    method OnDrag(x: real, y: real, widthPx: nat, heightPx: nat)
      requires Valid()
      modifies this
      ensures Valid()
      ensures touchedCells == old(touchedCells) + {CellIndexAsWritten(x, y, widthPx, heightPx)}
      ensures old(touchedCells) <= touchedCells
      ensures CellIndexAsWritten(x, y, widthPx, heightPx) in old(touchedCells) ==> touchedCells == old(touchedCells)
      ensures completions == old(completions) + (if |old(touchedCells)| < TOTAL_CELLS <= |touchedCells| then 1 else 0)
    {
      MarkCell(CellIndexAsWritten(x, y, widthPx, heightPx));
    }

    /** The drag event with the canvas's fractional cell size, so that the
        cell drawn under the finger is the one marked. */
    method OnDragFixed(x: real, y: real, widthPx: nat, heightPx: nat)
      requires Valid()
      modifies this
      ensures Valid()
      ensures touchedCells == old(touchedCells) + {CellIndex(x, y, widthPx, heightPx)}
      ensures old(touchedCells) <= touchedCells
      ensures CellIndex(x, y, widthPx, heightPx) in old(touchedCells) ==> touchedCells == old(touchedCells)
      ensures completions == old(completions) + (if |old(touchedCells)| < TOTAL_CELLS <= |touchedCells| then 1 else 0)
    {
      MarkCell(CellIndex(x, y, widthPx, heightPx));
    }

    /** Adds one cell to the set, firing `onComplete` when the set's size
        changes and reaches the total. */
    method MarkCell(cell: int)
      requires Valid() && 0 <= cell < TOTAL_CELLS
      modifies this
      ensures Valid()
      ensures touchedCells == old(touchedCells) + {cell}
      ensures old(touchedCells) <= touchedCells
      ensures cell in old(touchedCells) ==> touchedCells == old(touchedCells)
      ensures completions == old(completions) + (if |old(touchedCells)| < TOTAL_CELLS <= |touchedCells| then 1 else 0)
    {
      CompleteIffAllTouched(touchedCells);
      var before := |touchedCells|;
      touchedCells := touchedCells + {cell};
      SizeBound(touchedCells);
      if cell in old(touchedCells) {
        assert forall i :: i in touchedCells <==> i in old(touchedCells);
        assert touchedCells == old(touchedCells);
      }
      if |touchedCells| != before && |touchedCells| >= TOTAL_CELLS {
        completions := completions + 1;
      }
    }

    /** The render pass: the colour of every cell, visited row by row; a cell
        is drawn as touched exactly when its index is in the set. */
    method Render() returns (drawnTouched: seq<bool>)
      requires Valid()
      ensures |drawnTouched| == TOTAL_CELLS
      ensures forall r, c :: InGrid(r, c) ==> drawnTouched[CellAt(r, c)] == (CellAt(r, c) in touchedCells)
    {
      drawnTouched := [];
      for r := 0 to ROWS
        invariant |drawnTouched| == r * COLS
        invariant forall i :: 0 <= i < |drawnTouched| ==> drawnTouched[i] == (i in touchedCells)
      {
        for c := 0 to COLS
          invariant |drawnTouched| == r * COLS + c
          invariant forall i :: 0 <= i < |drawnTouched| ==> drawnTouched[i] == (i in touchedCells)
        {
          drawnTouched := drawnTouched + [CellAt(r, c) in touchedCells];
        }
      }
    }
  }

  /** The cell indices below `n`. */
  function CellRange(n: nat): (r: set<int>)
    ensures forall i :: i in r <==> 0 <= i < n
    ensures |r| == n
  {
    if n == 0 then {} else CellRange(n - 1) + {n - 1}
  }

  /** A set of cell indices never holds more than the 150 cells. */
  lemma SizeBound(cells: set<int>)
    requires forall i :: i in cells ==> 0 <= i < TOTAL_CELLS
    ensures |cells| <= TOTAL_CELLS
  {
    RangeSubsetSize(cells, TOTAL_CELLS);
  }

  lemma {:induction false} RangeSubsetSize(cells: set<int>, n: nat)
    requires forall i :: i in cells ==> 0 <= i < n
    ensures |cells| <= n
  {
    if n > 0 {
      var rest := cells - {n - 1};
      RangeSubsetSize(rest, n - 1);
      if n - 1 in cells {
        assert cells == rest + {n - 1};
      } else {
        assert cells == rest;
      }
    } else {
      assert forall i :: i in cells <==> i in {};
      assert cells == {};
    }
  }

  /** A set of indices below `n` that misses one of them has fewer than `n`. */
  lemma {:induction false} RangeMissingSize(cells: set<int>, n: nat, m: int)
    requires forall i :: i in cells ==> 0 <= i < n
    requires 0 <= m < n && m !in cells
    ensures |cells| < n
  {
    var rest := cells - {n - 1};
    if m == n - 1 {
      RangeSubsetSize(cells, n - 1);
    } else {
      RangeMissingSize(rest, n - 1, m);
      if n - 1 in cells {
        assert cells == rest + {n - 1};
      } else {
        assert cells == rest;
      }
    }
  }

  /** The test is complete exactly when every cell has been touched. */
  lemma CompleteIffAllTouched(cells: set<int>)
    requires forall i :: i in cells ==> 0 <= i < TOTAL_CELLS
    ensures |cells| >= TOTAL_CELLS <==> forall i :: 0 <= i < TOTAL_CELLS ==> i in cells
  {
    if forall i :: 0 <= i < TOTAL_CELLS ==> i in cells {
      assert cells == CellRange(TOTAL_CELLS);
    } else {
      var m :| 0 <= m < TOTAL_CELLS && m !in cells;
      RangeMissingSize(cells, TOTAL_CELLS, m);
    }
  }
}
