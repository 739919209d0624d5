/** What one call of the strip chart's `addData` draws and how it moves the
    chart's render cursor, written as functions of a snapshot of the chart.
    `StripChart.Graph` carries out the same steps on its fields with loops
    and is proved to append exactly these commands. Floating-point values
    are exact reals here; `Trunc` stands for the C `(int)` cast. */
module ChartSpec {
  import opened CArith
  import opened Display

  /** `axisDimensions`: the frame rectangle in pixels and the value domain,
      time `[x0, xf]` across and value `[y0, yf]` up. */
  datatype Frame = Frame(x: int, y: int, w: int, h: int, x0: real, xf: real, y0: real, yf: real)
  {
    /** A frame the chart can draw in: room for one plotted pixel inside the
        border and a non-empty domain on both axes. */
    predicate Valid()
    {
      w >= 3 && h >= 3 && x0 < xf && y0 < yf
    }

    /** The plotting area inside the one-pixel border. */
    function MinX(): int { x + 1 }
    function MaxX(): int { x + w - 2 }
    function MinY(): int { y + 1 }
    function MaxY(): int { y + h - 2 }
    function DX(): int { w - 3 }
    function DY(): int { h - 3 }

    /** The length of the time window. */
    function Span(): real { xf - x0 }
  }

  datatype Option<T> = None | Some(value: T)

  datatype Palette = Palette(axis: Rgb, background: Rgb, line: Rgb, grid: Rgb)

  /** The render cursor: last drawn column and (clamped) row, and the
      wrapped time of the last drawn sample. Column -1 means nothing has
      been drawn yet. */
  datatype Cursor = Cursor(x: int, y: int, valX: real)

  /** The state of a `CGraph` that `addData` reads and writes. */
  datatype Chart = Chart(
    frame: Frame,
    palette: Palette,
    eraser: int,
    cursor: Cursor,
    xGrid: real,
    yGrid: real,
    yGridStart: real,
    drawCursor: bool,
    numDraw: Byte)
  {
    /** The invariant every chart keeps: a valid frame, grid intervals that
        are zero (no grid) or positive, a Y grid anchored at or above `y0`,
        and a cursor that is either unset or a pixel of the plotting area. */
    predicate Valid()
    {
      frame.Valid() && xGrid >= 0.0 && yGrid >= 0.0 &&
      (yGrid > 0.0 ==> frame.y0 <= yGridStart) &&
      (cursor.x == -1 ||
       (frame.MinX() <= cursor.x <= frame.MaxX() && frame.MinY() <= cursor.y <= frame.MaxY()))
    }
  }

  // ---------------------------------------------------------------------------
  // Projections

  /** `t -= (int)(t / dx) * dx`: the time folded into the window. The
      window's start `x0` is not subtracted. */
  function WrapTime(t: real, span: real): (r: real)
    requires span > 0.0
    ensures t >= 0.0 ==> 0.0 <= r < span
    ensures 0.0 <= t < span ==> r == t
  {
    WrapBounds(t, span);
    t - (Trunc(t / span) as real) * span
  }

  lemma WrapBounds(t: real, span: real)
    requires span > 0.0
    ensures t >= 0.0 ==> 0.0 <= t - (Trunc(t / span) as real) * span < span
    ensures 0.0 <= t < span ==> Trunc(t / span) == 0
  {
    if t >= 0.0 {
      var q := t / span;
      FloorScaled(t, q, Trunc(q) as real, span);
      if t < span && q >= 1.0 {
        MulLeReal(1.0, q, span);
      }
    }
  }

  lemma FloorScaled(t: real, q: real, n: real, span: real)
    requires span > 0.0 && q == t / span && n <= q < n + 1.0
    ensures q * span == t
    ensures n * span <= t < n * span + span
  {
    MulLeReal(n, q, span);
    MulPos(n + 1.0 - q, span);
    assert (n + 1.0 - q) * span == n * span + span - q * span;
  }

  /** The pixel column of a (wrapped) time: `min((int)(pos/dx*dX) + minX, maxX)`. */
  function Column(f: Frame, pos: real): (c: int)
    requires f.Valid()
    ensures c <= f.MaxX()
    ensures pos >= 0.0 ==> f.MinX() <= c
  {
    ScaledNonNeg(pos, f.Span(), f.DX() as real);
    Min(Trunc(pos / f.Span() * (f.DX() as real)) + f.MinX(), f.MaxX())
  }

  lemma ScaledNonNeg(pos: real, span: real, d: real)
    requires span > 0.0 && d >= 0.0
    ensures pos >= 0.0 ==> pos / span * d >= 0.0
  {
    if pos >= 0.0 {
      QuotientNonNeg(pos, span);
      MulNonNeg(pos / span, d);
    }
  }

  /** The pixel row of a value: `(int)((yf - val)/(yf - y0)*dY) + minY`.
      It is not clamped; values above `yf` or below `y0` leave the area. */
  function Row(f: Frame, val: real): int
    requires f.Valid()
  {
    Trunc((f.yf - val) / (f.yf - f.y0) * (f.DY() as real)) + f.MinY()
  }

  /** `yf` is drawn on the top row, `y0` on the bottom row, and every value
      in between on a row of the plotting area. */
  lemma RowRange(f: Frame, val: real)
    requires f.Valid()
    ensures Row(f, f.yf) == f.MinY()
    ensures Row(f, f.y0) == f.MaxY()
    ensures f.y0 <= val <= f.yf ==> f.MinY() <= Row(f, val) <= f.MaxY()
  {
    RowEnds(f);
    if f.y0 <= val <= f.yf {
      RowInside(f, val);
    }
  }

  lemma RowEnds(f: Frame)
    requires f.Valid()
    ensures Row(f, f.yf) == f.MinY() && Row(f, f.y0) == f.MaxY()
  {
    var span := f.yf - f.y0;
    var d := f.DY() as real;
    assert (f.yf - f.yf) / span * d == 0.0;
    assert span / span == 1.0;
    TruncOfInt(0);
    TruncOfInt(f.DY());
  }

  lemma RowInside(f: Frame, val: real)
    requires f.Valid() && f.y0 <= val <= f.yf
    ensures f.MinY() <= Row(f, val) <= f.MaxY()
  {
    var span := f.yf - f.y0;
    var d := f.DY() as real;
    var q := (f.yf - val) / span;
    assert q * span == f.yf - val;
    MulLeReal(q, 1.0, span);
    MulLeReal(0.0, q, span);
    assert 0.0 <= q <= 1.0;
    UnitScale(q, d);
    TruncMonotone(0.0, q * d);
    TruncMonotone(q * d, d);
    TruncOfInt(0);
    TruncOfInt(f.DY());
  }

  lemma UnitScale(q: real, d: real)
    requires 0.0 <= q <= 1.0 && d >= 0.0
    ensures 0.0 <= q * d <= d
  {
    MulLeReal(q, 1.0, d);
    MulNonNeg(q, d);
  }

  // ---------------------------------------------------------------------------
  // Stepping a real grid position

  /** How many more grid positions `lo, lo + ival, ...` are at most `hi`:
      the measure that makes the grid loops terminate. */
  function Remaining(lo: real, hi: real, ival: real): nat
    requires ival > 0.0
  {
    if lo <= hi then
      QuotientNonNeg(hi - lo, ival);
      ((hi - lo) / ival).Floor + 1
    else 0
  }

  lemma QuotientNonNeg(a: real, b: real)
    requires a >= 0.0 && b > 0.0
    ensures a / b >= 0.0
  {
  }

  lemma RemainingStep(lo: real, hi: real, ival: real)
    requires ival > 0.0 && lo <= hi
    ensures Remaining(lo + ival, hi, ival) == Remaining(lo, hi, ival) - 1
  {
    var q := (hi - lo) / ival;
    assert q * ival == hi - lo;
    if lo + ival <= hi {
      var q' := (hi - (lo + ival)) / ival;
      assert q' * ival == hi - lo - ival;
      assert (q - 1.0) * ival == hi - lo - ival;
      QuotientShift(hi - lo, ival, -1.0);
      assert hi - (lo + ival) == hi - lo + (-1.0) * ival;
      assert q' == q - 1.0;
    } else {
      assert (hi - lo) < ival;
      if q >= 1.0 {
        MulLeReal(1.0, q, ival);
      }
    }
  }

  /** `while (gridPos < target) gridPos += ival;` */
  function SkipTo(pos: real, target: real, ival: real): (r: real)
    requires ival > 0.0
    ensures r >= target && r >= pos
    ensures pos < target ==> r < target + ival
    decreases Remaining(pos, target, ival)
  {
    if pos < target then
      RemainingStep(pos, target, ival);
      SkipTo(pos + ival, target, ival)
    else pos
  }

  // ---------------------------------------------------------------------------
  // Grid overlays

  /** The dashed vertical X-grid line at column `col`: two-pixel dashes
      starting every 4 rows from `row`, none reaching past `maxY`. */
  function Dashes(col: int, row: int, maxY: int): seq<Cmd>
    decreases maxY - row
  {
    if row + 1 <= maxY then [Line(col, row, col, row + 1)] + Dashes(col, row + 4, maxY)
    else []
  }

  /** The X-grid lines at `pos, pos + ival, ...` up to time `t`. */
  function XTicks(f: Frame, grid: Rgb, pos: real, t: real, ival: real): seq<Cmd>
    requires f.Valid() && ival > 0.0
    decreases Remaining(pos, t, ival)
  {
    if pos > t then []
    else
      RemainingStep(pos, t, ival);
      [SetColor(grid)] + Dashes(Column(f, pos), f.MinY(), f.MaxY()) + XTicks(f, grid, pos + ival, t, ival)
  }

  /** The X grid of one `addData` call: the lines from the first grid time
      at or after the last drawn sample up to the new (wrapped) time. */
  function XGridCmds(c: Chart, t: real): seq<Cmd>
    requires c.Valid()
  {
    if c.xGrid != 0.0 then
      XTicks(c.frame, c.palette.grid, SkipTo(c.frame.x0, c.cursor.valX, c.xGrid), t, c.xGrid)
    else []
  }

  /** The dash pattern of the horizontal Y-grid lines: a pixel is drawn at
      column `col` when `(col - minX) % 4` is 0 or 1, so the phase depends
      on the column alone. */
  predicate DashAt(col: int, minX: int)
  {
    var d := CRem(col - minX, 4);
    d == 0 || d == 1
  }

  /** The Y-grid pixels on `row` in columns `lo` to `hi`. */
  function Sweep(row: int, lo: int, hi: int, minX: int): seq<Cmd>
    decreases hi - lo
  {
    if lo <= hi then
      (if DashAt(lo, minX) then [Pixel(lo, row)] else []) + Sweep(row, lo + 1, hi, minX)
    else []
  }

  /** A dash column's pixel, then the rest of the sweep. */
  lemma DashStep(log: seq<Cmd>, row: int, lo: int, hi: int, minX: int)
    requires lo <= hi && DashAt(lo, minX)
    ensures log + Sweep(row, lo, hi, minX) == (log + [Pixel(lo, row)]) + Sweep(row, lo + 1, hi, minX)
  {
  }

  /** The columns a Y-grid line is extended over when the cursor moves
      from column `old` to column `cur`: the whole run up to `cur` on the
      first sample, the rest of the area and then the start up to `cur`
      after a wrap, and `(old, cur]` otherwise. */
  function YSweeps(c: Chart, row: int, cur: int): seq<Cmd>
  {
    var f := c.frame;
    if c.cursor.x < 0 then Sweep(row, f.MinX(), cur, f.MinX())
    else if c.cursor.x > cur then
      Sweep(row, c.cursor.x + 1, f.MaxX(), f.MinX()) + Sweep(row, f.MinX(), cur, f.MinX())
    else Sweep(row, c.cursor.x + 1, cur, f.MinX())
  }

  predicate Covered(c: Chart, col: int, cur: int)
  {
    var f := c.frame;
    if c.cursor.x < 0 then f.MinX() <= col <= cur
    else if c.cursor.x > cur then c.cursor.x < col <= f.MaxX() || f.MinX() <= col <= cur
    else c.cursor.x < col <= cur
  }

  /** The Y-grid lines at `pos, pos + yGrid, ...` up to `yf`. */
  function YRows(c: Chart, pos: real, cur: int): seq<Cmd>
    requires c.Valid() && c.yGrid > 0.0
    decreases Remaining(pos, c.frame.yf, c.yGrid)
  {
    if pos > c.frame.yf then []
    else
      RemainingStep(pos, c.frame.yf, c.yGrid);
      [SetColor(c.palette.grid)] + YSweeps(c, Row(c.frame, pos), cur) + YRows(c, pos + c.yGrid, cur)
  }

  function YGridCmds(c: Chart, cur: int): seq<Cmd>
    requires c.Valid()
  {
    if c.yGrid != 0.0 then YRows(c, c.yGridStart, cur) else []
  }

  // ---------------------------------------------------------------------------
  // The plotted segment

  /** The row where a wrapping segment leaves the right edge: the old row
      plus the share `dxE / dxP` of the rise, clamped to the area. */
  function EdgeRow(c: Chart, cur: int, curY: int): int
    requires c.cursor.x <= c.frame.MaxX() && c.frame.x < cur
  {
    var f := c.frame;
    var dxE := f.MaxX() - c.cursor.x;
    var dyP := curY - c.cursor.y;
    var dxP := cur - f.x + 1 + dxE;
    Constrain(c.cursor.y + Trunc(EdgeShare(dxE, dxP, dyP)), f.y + 1, f.y + f.h - 2)
  }

  /** `(float)dxE / (float)dxP * dyP`: the share of the rise `dyP` made
      before the right edge. */
  function EdgeShare(dxE: int, dxP: int, dyP: int): real
    requires dxP != 0
  {
    (dxE as real) / (dxP as real) * (dyP as real)
  }

  /** The cursor overlay: its line is not drawn, only the axis colour set. */
  function Overlay(c: Chart, cur: int): seq<Cmd>
  {
    if c.drawCursor && cur < c.frame.MaxX() then [SetColor(c.palette.axis)] else []
  }

  /** The commands after the grids: a single pixel for the first sample,
      the two-segment wrap with the window at the start erased, or one
      segment with the eraser window ahead of it. */
  function SegmentCmds(c: Chart, cur: int, curY: int, curYC: int): seq<Cmd>
    requires c.Valid() && c.frame.MinX() <= cur
  {
    var f := c.frame;
    var p := c.palette;
    if c.cursor.x < 0 then
      [SetColor(p.line), Pixel(cur, curYC)]
    else if cur < c.cursor.x then
      var yEnd := EdgeRow(c, cur, curY);
      [SetColor(p.background), Fill(f.MinX(), f.MinY(), Min(cur + c.eraser, f.MaxX()), f.MaxY()),
       SetColor(p.line), Line(c.cursor.x, c.cursor.y, f.MaxX(), yEnd), Line(f.MinX(), yEnd, cur, curYC)]
      + Overlay(c, cur)
    else
      (if c.cursor.x + c.eraser < f.MaxX() || c.drawCursor then
         [SetColor(p.background), Fill(c.cursor.x + c.eraser, f.MinY(), Min(cur + c.eraser, f.MaxX()), f.MaxY())]
       else [])
      + [SetColor(p.line), Line(c.cursor.x, c.cursor.y, cur, curYC)]
      + Overlay(c, cur)
  }

  /** Everything `addData(t, val)` draws: nothing when the sample falls in
      the column last drawn, else the X grid, the Y grid and the segment. */
  function AddDataCmds(c: Chart, t: real, val: real): seq<Cmd>
    requires c.Valid() && t >= 0.0
  {
    var f := c.frame;
    var tw := WrapTime(t, f.Span());
    var cur := Column(f, tw);
    if cur == c.cursor.x then []
    else
      var curY := Row(f, val);
      XGridCmds(c, tw) + YGridCmds(c, cur) + SegmentCmds(c, cur, curY, Constrain(curY, f.MinY(), f.MaxY()))
  }

  /** The state after `addData(t, val)`: unchanged when nothing is drawn,
      else the cursor moves to the new column, clamped row and wrapped time,
      and a wrap bumps the 8-bit wrap counter. */
  function AddDataNext(c: Chart, t: real, val: real): (n: Chart)
    requires c.Valid() && t >= 0.0
    ensures n.Valid()
    ensures n.frame == c.frame && n.palette == c.palette && n.eraser == c.eraser
    ensures n.xGrid == c.xGrid && n.yGrid == c.yGrid && n.yGridStart == c.yGridStart
    ensures n.cursor != c.cursor ==>
      0.0 <= n.cursor.valX < c.frame.Span() &&
      c.frame.MinX() <= n.cursor.x <= c.frame.MaxX() && c.frame.MinY() <= n.cursor.y <= c.frame.MaxY()
    ensures n.numDraw != c.numDraw ==> 0 <= c.cursor.x && n.cursor.x < c.cursor.x
  {
    var f := c.frame;
    var tw := WrapTime(t, f.Span());
    var cur := Column(f, tw);
    if cur == c.cursor.x then c
    else
      c.(cursor := Cursor(cur, Constrain(Row(f, val), f.MinY(), f.MaxY()), tw),
         numDraw := if c.cursor.x >= 0 && cur < c.cursor.x then (c.numDraw + 1) % 256 else c.numDraw)
  }

  /** A sample that lands in the column last drawn draws nothing and leaves
      the chart as it was; any other sample moves the cursor to its column. */
  lemma AddDataSameColumn(c: Chart, t: real, val: real)
    requires c.Valid() && t >= 0.0
    ensures Column(c.frame, WrapTime(t, c.frame.Span())) == c.cursor.x <==> AddDataNext(c, t, val) == c
    ensures Column(c.frame, WrapTime(t, c.frame.Span())) == c.cursor.x ==> AddDataCmds(c, t, val) == []
    ensures AddDataNext(c, t, val).cursor.x == Column(c.frame, WrapTime(t, c.frame.Span()))
  {
  }

  /** `redrawAxis`: clear the plotting area, then outline the frame. */
  function AxisCmds(c: Chart): seq<Cmd>
  {
    var f := c.frame;
    [SetColor(c.palette.background), Fill(f.x + 1, f.y + 1, f.x + f.w - 2, f.y + f.h - 2),
     SetColor(c.palette.axis), Rect(f.x, f.y, f.x + f.w - 1, f.y + f.h - 1)]
  }

  // ---------------------------------------------------------------------------
  // The Y-grid anchor (setYGridInterval)

  /** `while (start - ival > y0) start -= ival;` */
  function Descend(start: real, ival: real, y0: real): (r: real)
    requires ival > 0.0
    decreases Remaining(y0 + ival, start, ival)
  {
    if start - ival > y0 then
      RemainingStep(y0 + ival, start, ival);
      assert Remaining(y0 + ival, start - ival, ival) == Remaining(y0 + ival + ival, start, ival);
      Descend(start - ival, ival, y0)
    else start
  }

  /** `while (start < y0) start += ival;` */
  function Ascend(start: real, ival: real, y0: real): real
    requires ival > 0.0
    decreases Remaining(start, y0, ival)
  {
    if start < y0 then
      RemainingStep(start, y0, ival);
      Ascend(start + ival, ival, y0)
    else start
  }

  /** The grid values `k * ival` for an integer `k`. */
  predicate OnGrid(v: real, ival: real)
    requires ival > 0.0
  {
    (v / ival).Floor as real == v / ival
  }

  lemma Cancel(a: real, b: real, ival: real)
    requires ival > 0.0 && a * ival == b * ival
    ensures a == b
  {
    if a < b {
      MulPos(b - a, ival);
    } else if a > b {
      MulPos(a - b, ival);
    }
  }

  lemma OnGridShift(v: real, ival: real)
    requires ival > 0.0 && OnGrid(v, ival)
    ensures OnGrid(v + ival, ival) && OnGrid(v - ival, ival)
  {
    var q := v / ival;
    QuotientShift(v, ival, 1.0);
    assert 1.0 * ival == ival;
    assert (v + ival) / ival == q + 1.0;
    FloorShift(q, 1);
    QuotientShift(v, ival, -1.0);
    assert v + (-1.0) * ival == v - ival;
    assert (v - ival) / ival == q - 1.0;
    FloorShift(q, -1);
  }

  lemma FloorShift(q: real, d: int)
    ensures (q + d as real).Floor == q.Floor + d
  {
  }

  lemma QuotientShift(v: real, ival: real, d: real)
    requires ival > 0.0
    ensures (v + d * ival) / ival == v / ival + d
  {
    var q := v / ival;
    var q' := (v + d * ival) / ival;
    assert q * ival == v;
    assert q' * ival == v + d * ival;
    assert (q + d) * ival == q * ival + d * ival;
    Cancel(q', q + d, ival);
  }

  lemma {:induction false} DescendSpec(start: real, ival: real, y0: real)
    requires ival > 0.0
    ensures Descend(start, ival, y0) <= start
    ensures Descend(start, ival, y0) - ival <= y0
    ensures start > y0 ==> Descend(start, ival, y0) > y0
    ensures OnGrid(start, ival) ==> OnGrid(Descend(start, ival, y0), ival)
    decreases Remaining(y0 + ival, start, ival)
  {
    if start - ival > y0 {
      RemainingStep(y0 + ival, start, ival);
      assert Remaining(y0 + ival, start - ival, ival) == Remaining(y0 + ival + ival, start, ival);
      DescendSpec(start - ival, ival, y0);
      if OnGrid(start, ival) {
        OnGridShift(start, ival);
      }
    }
  }

  lemma {:induction false} AscendSpec(start: real, ival: real, y0: real)
    requires ival > 0.0
    ensures Ascend(start, ival, y0) >= y0 && Ascend(start, ival, y0) >= start
    ensures start < y0 ==> Ascend(start, ival, y0) < y0 + ival
    ensures OnGrid(start, ival) ==> OnGrid(Ascend(start, ival, y0), ival)
    decreases Remaining(start, y0, ival)
  {
    if start < y0 {
      RemainingStep(start, y0, ival);
      AscendSpec(start + ival, ival, y0);
      if OnGrid(start, ival) {
        OnGridShift(start, ival);
      }
    }
  }

  /** The first Y-grid value the search of `setYGridInterval` settles on
      for a positive interval, as written: a multiple of the interval no
      lower than `y0` and at most one interval above it. */
  function SearchedStart(ival: real, y0: real): (s: real)
    requires ival > 0.0
    ensures y0 <= s <= y0 + ival && OnGrid(s, ival)
  {
    var d := Descend(0.0, ival, y0);
    DescendSpec(0.0, ival, y0);
    AscendSpec(d, ival, y0);
    assert 0.0 / ival == 0.0;
    Ascend(d, ival, y0)
  }

  /** The corrected downward search, `while (start - ival >= y0)`: step
      down while the next grid value is still at or above `y0`. */
  function DescendTo(start: real, ival: real, y0: real): real
    requires ival > 0.0
    decreases Remaining(y0 + ival, start, ival)
  {
    if start - ival >= y0 then
      RemainingStep(y0 + ival, start, ival);
      assert Remaining(y0 + ival, start - ival, ival) == Remaining(y0 + ival + ival, start, ival);
      DescendTo(start - ival, ival, y0)
    else start
  }

  lemma {:induction false} DescendToSpec(start: real, ival: real, y0: real)
    requires ival > 0.0
    ensures DescendTo(start, ival, y0) <= start
    ensures DescendTo(start, ival, y0) - ival < y0
    ensures start >= y0 ==> DescendTo(start, ival, y0) >= y0
    ensures OnGrid(start, ival) ==> OnGrid(DescendTo(start, ival, y0), ival)
    decreases Remaining(y0 + ival, start, ival)
  {
    if start - ival >= y0 {
      RemainingStep(y0 + ival, start, ival);
      assert Remaining(y0 + ival, start - ival, ival) == Remaining(y0 + ival + ival, start, ival);
      DescendToSpec(start - ival, ival, y0);
      if OnGrid(start, ival) {
        OnGridShift(start, ival);
      }
    }
  }

  /** Two grid values less than one interval apart in the order `a`, `b`
      are in the order `a <= b`. */
  lemma GridOrder(a: real, b: real, ival: real)
    requires ival > 0.0 && OnGrid(a, ival) && OnGrid(b, ival) && a < b + ival
    ensures a <= b
  {
    var qa, qb := a / ival, b / ival;
    QuotientShift(b, ival, 1.0);
    assert b + 1.0 * ival == b + ival;
    DivStrict(a, b + ival, ival);
    assert qa < qb + 1.0;
    var ka, kb := qa.Floor, qb.Floor;
    assert ka <= kb;
    MulLeReal(qa, qb, ival);
    assert qa * ival == a && qb * ival == b;
  }

  lemma DivStrict(a: real, b: real, d: real)
    requires a < b && d > 0.0
    ensures a / d < b / d
  {
    MulPos(b - a, 1.0 / d);
    assert b / d - a / d == (b - a) * (1.0 / d);
  }

  /** The first Y-grid value `setYGridInterval` is meant to find, searching
      from zero: the lowest multiple of the interval at or above `y0`. An
      interval of 0 (no grid) needs no search. */
  function GridStart(ival: real, y0: real): (s: real)
    requires ival >= 0.0
    ensures ival == 0.0 ==> s == 0.0
    ensures ival > 0.0 ==> y0 <= s < y0 + ival && OnGrid(s, ival)
  {
    if ival == 0.0 then 0.0
    else
      var d := DescendTo(0.0, ival, y0);
      DescendToSpec(0.0, ival, y0);
      AscendSpec(d, ival, y0);
      assert 0.0 / ival == 0.0;
      Ascend(d, ival, y0)
  }

  /** `GridStart` is the lowest grid value at or above `y0`. */
  lemma GridStartIsLowest(ival: real, y0: real, v: real)
    requires ival > 0.0 && OnGrid(v, ival) && y0 <= v
    ensures GridStart(ival, y0) <= v
  {
    GridOrder(GridStart(ival, y0), v, ival);
  }

  /** The search as written misses the lowest grid value exactly when `y0`
      is itself a negative grid value: the downward loop stops while
      `start - ival == y0`, one interval above `y0`. */
  lemma SearchMissesNegativeFloor(ival: real, y0: real)
    requires ival > 0.0
    ensures SearchedStart(ival, y0) != GridStart(ival, y0) <==> OnGrid(y0, ival) && y0 < 0.0
    ensures OnGrid(y0, ival) && y0 < 0.0 ==> SearchedStart(ival, y0) == y0 + ival
  {
    var s, g := SearchedStart(ival, y0), GridStart(ival, y0);
    GridStartIsLowest(ival, y0, s);
    if s < y0 + ival {
      GridOrder(s, g, ival);
    } else {
      OnGridShift(s, ival);
      assert s - ival == y0;
    }
    if OnGrid(y0, ival) && y0 < 0.0 {
      GridStartIsLowest(ival, y0, y0);
      DescendSpec(0.0, ival, y0);
      var d := Descend(0.0, ival, y0);
      assert 0.0 / ival == 0.0;
      GridOrder(y0, d - ival, ival) by {
        OnGridShift(d, ival);
      }
    }
  }

  /** The Y axis of the logger's thermocouple charts, from -1 with a grid
      every 0.5: the search as written starts the grid at -0.5, so the
      grid line on `y0` itself is never drawn. */
  lemma NegativeFloorExample()
    ensures SearchedStart(0.5, -1.0) == -0.5 && GridStart(0.5, -1.0) == -1.0
  {
    assert (-1.0 / 0.5).Floor == -2;
    SearchMissesNegativeFloor(0.5, -1.0);
    GridStartIsLowest(0.5, -1.0, -1.0);
  }

  /** The two search loops of `setYGridInterval` exactly as written, for
      any interval, run for at most `fuel` passes each; `None` when a loop
      has not finished by then. */
  function DescendAsWritten(start: real, ival: real, y0: real, fuel: nat): Option<real>
    decreases fuel
  {
    if fuel == 0 then None
    else if start - ival > y0 then DescendAsWritten(start - ival, ival, y0, fuel - 1)
    else Some(start)
  }

  function AscendAsWritten(start: real, ival: real, y0: real, fuel: nat): Option<real>
    decreases fuel
  {
    if fuel == 0 then None
    else if start < y0 then AscendAsWritten(start + ival, ival, y0, fuel - 1)
    else Some(start)
  }

  function GridStartAsWritten(ival: real, y0: real, fuel: nat): Option<real>
  {
    match DescendAsWritten(0.0, ival, y0, fuel)
    case None => None
    case Some(d) => AscendAsWritten(d, ival, y0, fuel)
  }

  /** With an interval of 0, which the header documents as "no grid", the
      loops as written never finish unless `y0` is exactly 0: below zero
      the first loop never stops, above zero the second. */
  lemma ZeroIntervalNeverSettles(y0: real, fuel: nat)
    requires y0 != 0.0
    ensures GridStartAsWritten(0.0, y0, fuel) == None
  {
    if y0 < 0.0 {
      DescendStuck(y0, fuel);
    } else {
      assert DescendAsWritten(0.0, 0.0, y0, fuel) == if fuel == 0 then None else Some(0.0);
      AscendStuck(y0, fuel);
    }
  }

  lemma {:induction false} DescendStuck(y0: real, fuel: nat)
    requires y0 < 0.0
    ensures DescendAsWritten(0.0, 0.0, y0, fuel) == None
  {
    if fuel > 0 {
      DescendStuck(y0, fuel - 1);
    }
  }

  lemma {:induction false} AscendStuck(y0: real, fuel: nat)
    requires y0 > 0.0
    ensures AscendAsWritten(0.0, 0.0, y0, fuel) == None
  {
    if fuel > 0 {
      AscendStuck(y0, fuel - 1);
    }
  }

  /** With a positive interval the loops as written finish, given enough
      passes, on the value `SearchedStart` describes. */
  lemma GridStartAsWrittenAgrees(ival: real, y0: real)
    requires ival > 0.0
    ensures GridStartAsWritten(ival, y0, Remaining(y0 + ival, 0.0, ival) + Remaining(Descend(0.0, ival, y0), y0, ival) + 1)
         == Some(SearchedStart(ival, y0))
  {
    var fuel := Remaining(y0 + ival, 0.0, ival) + Remaining(Descend(0.0, ival, y0), y0, ival) + 1;
    DescendAgrees(0.0, ival, y0, fuel);
    AscendAgrees(Descend(0.0, ival, y0), ival, y0, fuel);
  }

  lemma {:induction false} DescendAgrees(start: real, ival: real, y0: real, fuel: nat)
    requires ival > 0.0 && fuel > Remaining(y0 + ival, start, ival)
    ensures DescendAsWritten(start, ival, y0, fuel) == Some(Descend(start, ival, y0))
    decreases fuel
  {
    if start - ival > y0 {
      RemainingStep(y0 + ival, start, ival);
      assert Remaining(y0 + ival, start - ival, ival) == Remaining(y0 + ival + ival, start, ival);
      DescendAgrees(start - ival, ival, y0, fuel - 1);
    }
  }

  lemma {:induction false} AscendAgrees(start: real, ival: real, y0: real, fuel: nat)
    requires ival > 0.0 && fuel > Remaining(start, y0, ival)
    ensures AscendAsWritten(start, ival, y0, fuel) == Some(Ascend(start, ival, y0))
    decreases fuel
  {
    if start < y0 {
      RemainingStep(start, y0, ival);
      AscendAgrees(start + ival, ival, y0, fuel - 1);
    }
  }

  // ---------------------------------------------------------------------------
  // Properties of addData

  /** Every X-grid command sets the grid colour or draws a two-pixel
      vertical dash that starts a multiple of 4 rows below `minY` and ends
      no lower than `maxY`. */
  lemma {:induction false} DashesShape(col: int, row: int, maxY: int)
    ensures forall cmd <- Dashes(col, row, maxY) ::
      cmd.Line? && cmd.x1 == col && cmd.x2 == col && cmd.y2 == cmd.y1 + 1 &&
      row <= cmd.y1 && cmd.y2 <= maxY && (cmd.y1 - row) % 4 == 0
    decreases maxY - row
  {
    if row + 1 <= maxY {
      DashesShape(col, row + 4, maxY);
    }
  }

  /** An X-grid command: the grid colour, or a dash on the rows of the
      area, in a column no further right than `maxX`. */
  predicate XGridCmd(f: Frame, grid: Rgb, cmd: Cmd)
  {
    cmd == SetColor(grid) ||
    (cmd.Line? && cmd.x1 == cmd.x2 && cmd.x1 <= f.MaxX() && cmd.y2 == cmd.y1 + 1 &&
     f.MinY() <= cmd.y1 && cmd.y2 <= f.MaxY() && (cmd.y1 - f.MinY()) % 4 == 0)
  }

  /** The X-grid loop draws only grid-coloured dashes on the dash rows;
      from a non-negative time on, their columns lie inside the area. */
  lemma {:induction false} XTicksShape(f: Frame, grid: Rgb, pos: real, t: real, ival: real)
    requires f.Valid() && ival > 0.0
    ensures forall cmd <- XTicks(f, grid, pos, t, ival) :: XGridCmd(f, grid, cmd)
    ensures pos >= 0.0 ==> forall cmd <- XTicks(f, grid, pos, t, ival) :: cmd.Line? ==> f.MinX() <= cmd.x1
    decreases Remaining(pos, t, ival)
  {
    if pos <= t {
      RemainingStep(pos, t, ival);
      DashesShape(Column(f, pos), f.MinY(), f.MaxY());
      XTicksShape(f, grid, pos + ival, t, ival);
    }
  }

  /** The X grid of one sample; when the time axis starts at a
      non-negative `x0`, every dash lies inside the area. */
  lemma XGridShape(c: Chart, t: real)
    requires c.Valid()
    ensures forall cmd <- XGridCmds(c, t) :: XGridCmd(c.frame, c.palette.grid, cmd)
    ensures c.frame.x0 >= 0.0 ==> forall cmd <- XGridCmds(c, t) :: cmd.Line? ==> c.frame.MinX() <= cmd.x1
  {
    if c.xGrid != 0.0 {
      XTicksShape(c.frame, c.palette.grid, SkipTo(c.frame.x0, c.cursor.valX, c.xGrid), t, c.xGrid);
    }
  }

  /** With a time axis starting below zero the first X-grid line, at `x0`,
      falls left of the area, since `addData` wraps times into
      `[0, xf - x0)` but starts the grid at `x0`. */
  lemma NegativeStartTickLeftOfArea()
    ensures var f := Frame(10, 0, 100, 40, -5.0, 5.0, 0.0, 1.0);
      f.Valid() && Column(f, -5.0) < f.MinX()
  {
    var f := Frame(10, 0, 100, 40, -5.0, 5.0, 0.0, 1.0);
    assert -5.0 / f.Span() * (f.DX() as real) == -48.5;
  }

  /** A row sweep draws exactly the dash columns of its range. */
  lemma {:induction false} SweepExact(row: int, lo: int, hi: int, minX: int)
    ensures forall cmd <- Sweep(row, lo, hi, minX) ::
      (cmd.Pixel? && cmd.y == row && lo <= cmd.x <= hi && DashAt(cmd.x, minX))
    ensures forall col :: (lo <= col <= hi && DashAt(col, minX) ==> Pixel(col, row) in Sweep(row, lo, hi, minX))
    decreases hi - lo
  {
    if lo <= hi {
      SweepExact(row, lo + 1, hi, minX);
    }
  }

  /** A Y-grid line is extended over exactly the dash columns among those
      the cursor has just passed: `(old, cur]`, or `(old, maxX]` and
      `[minX, cur]` after a wrap. */
  lemma YSweepsExact(c: Chart, row: int, cur: int)
    ensures forall cmd <- YSweeps(c, row, cur) ::
      cmd.Pixel? && cmd.y == row && Covered(c, cmd.x, cur) && DashAt(cmd.x, c.frame.MinX())
    ensures forall col :: Covered(c, col, cur) && DashAt(col, c.frame.MinX()) ==> Pixel(col, row) in YSweeps(c, row, cur)
  {
    var f := c.frame;
    if c.cursor.x < 0 {
      SweepExact(row, f.MinX(), cur, f.MinX());
    } else if c.cursor.x > cur {
      SweepExact(row, c.cursor.x + 1, f.MaxX(), f.MinX());
      SweepExact(row, f.MinX(), cur, f.MinX());
    } else {
      SweepExact(row, c.cursor.x + 1, cur, f.MinX());
    }
  }

  predicate YGridCmd(c: Chart, cur: int, cmd: Cmd)
  {
    cmd == SetColor(c.palette.grid) ||
    (cmd.Pixel? && DashAt(cmd.x, c.frame.MinX()) && Covered(c, cmd.x, cur) &&
     c.frame.MinY() <= cmd.y <= c.frame.MaxY())
  }

  lemma {:induction false} YRowsShape(c: Chart, pos: real, cur: int)
    requires c.Valid() && c.yGrid > 0.0 && c.frame.y0 <= pos
    ensures forall cmd <- YRows(c, pos, cur) :: YGridCmd(c, cur, cmd)
    decreases Remaining(pos, c.frame.yf, c.yGrid)
  {
    if pos <= c.frame.yf {
      RemainingStep(pos, c.frame.yf, c.yGrid);
      var row := Row(c.frame, pos);
      RowRange(c.frame, pos);
      YSweepsExact(c, row, cur);
      YRowsShape(c, pos + c.yGrid, cur);
      var sweeps, rest := YSweeps(c, row, cur), YRows(c, pos + c.yGrid, cur);
      assert YRows(c, pos, cur) == [SetColor(c.palette.grid)] + sweeps + rest;
      forall cmd <- [SetColor(c.palette.grid)] + sweeps + rest
        ensures YGridCmd(c, cur, cmd)
      {
        if cmd in sweeps {
          assert c.frame.MinY() <= cmd.y <= c.frame.MaxY();
        }
      }
    }
  }

  /** Every Y-grid pixel lies on a row of the plotting area, in a column
      the cursor has just passed, and on the dash pattern. */
  lemma YGridShape(c: Chart, cur: int)
    requires c.Valid()
    ensures forall cmd <- YGridCmds(c, cur) :: YGridCmd(c, cur, cmd)
  {
    if c.yGrid != 0.0 {
      YRowsShape(c, c.yGridStart, cur);
    }
  }

  /** On an on-screen frame a first sample draws a single pixel in the line
      colour, inside the plotting area, after the grids. */
  lemma FirstSample(c: Chart, t: real, val: real)
    requires c.Valid() && t >= 0.0 && c.cursor.x < 0 && c.frame.x >= 0
    ensures var f := c.frame;
      var cur := Column(f, WrapTime(t, f.Span()));
      var curYC := Constrain(Row(f, val), f.MinY(), f.MaxY());
      f.MinX() <= cur <= f.MaxX() && f.MinY() <= curYC <= f.MaxY() &&
      AddDataCmds(c, t, val) == XGridCmds(c, WrapTime(t, f.Span())) + YGridCmds(c, cur) + [SetColor(c.palette.line), Pixel(cur, curYC)]
  {
  }

  /** The wrap-around case: the interpolation divisor `dxP` is at least 2,
      the old segment is carried to the right edge and the new one starts
      at the left edge on the same interpolated row inside the area, the
      erased window runs from `minX`, and the wrap counter goes up by one
      modulo 256. */
  lemma WrapAround(c: Chart, t: real, val: real)
    requires c.Valid() && t >= 0.0
    requires c.cursor.x >= 0 && Column(c.frame, WrapTime(t, c.frame.Span())) < c.cursor.x
    ensures var f := c.frame;
      var cur := Column(f, WrapTime(t, f.Span()));
      var curY := Row(f, val);
      var yEnd := EdgeRow(c, cur, curY);
      var seg := SegmentCmds(c, cur, curY, Constrain(curY, f.MinY(), f.MaxY()));
      cur - f.x + 1 + (f.MaxX() - c.cursor.x) >= 2 &&
      f.MinY() <= yEnd <= f.MaxY() &&
      seg[1] == Fill(f.MinX(), f.MinY(), Min(cur + c.eraser, f.MaxX()), f.MaxY()) &&
      seg[3] == Line(c.cursor.x, c.cursor.y, f.MaxX(), yEnd) &&
      seg[4] == Line(f.MinX(), yEnd, cur, Constrain(curY, f.MinY(), f.MaxY())) &&
      AddDataNext(c, t, val).numDraw == (c.numDraw + 1) % 256
  {
  }
}
