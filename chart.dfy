/** The strip chart (`CGraph`): a scrolling plot of time-stamped samples
    drawn column by column with minimal updates, an eraser window ahead of
    the cursor, optional dashed grids and an anti-aliased line routine. */
module StripChart {
  import opened CArith
  import opened Display
  import opened ChartSpec
  import AntiAlias

  /** `setYGridInterval`'s search for the first grid value, for a positive
      interval: step down from 0 while the next grid value is still at or
      above `y0`, then up until `y0` is reached. The downward loop tests
      `>=` where the source tests `>`, so that a negative `y0` on the grid
      is found (see `SearchMissesNegativeFloor`). */
  method LowestGridLine(ival: real, y0: real) returns (start: real)
    requires ival > 0.0
    ensures start == GridStart(ival, y0)
    ensures y0 <= start < y0 + ival && OnGrid(start, ival)
  {
    start := 0.0;
    while start - ival >= y0
      invariant DescendTo(start, ival, y0) == DescendTo(0.0, ival, y0)
      decreases Remaining(y0 + ival, start, ival)
    {
      RemainingStep(y0 + ival, start, ival);
      assert Remaining(y0 + ival, start - ival, ival) == Remaining(y0 + ival + ival, start, ival);
      start := start - ival;
    }
    while start < y0
      invariant Ascend(start, ival, y0) == GridStart(ival, y0)
      decreases Remaining(start, y0, ival)
    {
      RemainingStep(start, y0, ival);
      start := start + ival;
    }
  }

  class Graph {
    /** `axisDimensions` and the drawable area derived from it. */
    const frame: Frame
    const minX: int
    const maxX: int
    const minY: int
    const maxY: int
    const dX: int
    const dY: int
    const tft: Surface

    var axisColor: Rgb
    var backgroundColor: Rgb
    var lineColor: Rgb
    var gridColor: Rgb
    var eraserWidth: int
    var oldCursorX: int
    var oldCursorY: int
    var oldValX: real
    var xGridInterval: real
    var yGridInterval: real
    var yGridStart: real
    var drawCursor: bool
    /** `m_numDraw`, a `uint8_t` counting wrap-arounds. */
    var numDraw: Byte

    /** The chart state as a value, for the specifications in `ChartSpec`. */
    function View(): Chart
      reads this
    {
      Chart(frame, Palette(axisColor, backgroundColor, lineColor, gridColor), eraserWidth,
            Cursor(oldCursorX, oldCursorY, oldValX), xGridInterval, yGridInterval, yGridStart,
            drawCursor, numDraw)
    }

    predicate Valid()
      reads this
    {
      minX == frame.MinX() && maxX == frame.MaxX() && minY == frame.MinY() && maxY == frame.MaxY() &&
      dX == frame.DX() && dY == frame.DY() && View().Valid()
    }

    /** A chart in frame `(x, y, w, h)` plotting time `[x0, xf]` against
        value `[y0, yf]`. `m_YGridStart` is left unset by the source; it is
        0 here and only read once a Y-grid interval has been set. */
    constructor (x: int, y: int, w: int, h: int, x0: real, xf: real, y0: real, yf: real, tft: Surface)
      requires w >= 3 && h >= 3 && x0 < xf && y0 < yf
      ensures Valid() && this.tft == tft
      ensures frame == Frame(x, y, w, h, x0, xf, y0, yf)
      ensures minX == x + 1 && maxX == x + w - 2 && minY == y + 1 && maxY == y + h - 2
      ensures dX == maxX - minX && dY == maxY - minY
      ensures eraserWidth == 50 && oldCursorX == -1 && oldCursorY == -1 && oldValX == x0
      ensures xGridInterval == 0.0 && yGridInterval == 0.0 && !drawCursor && numDraw == 0
      ensures axisColor == Rgb(255, 255, 255) && backgroundColor == Rgb(12, 12, 12)
      ensures lineColor == Rgb(255, 0, 0) && gridColor == Rgb(220, 220, 220)
    {
      frame := Frame(x, y, w, h, x0, xf, y0, yf);
      eraserWidth := 50;
      oldCursorX := -1;
      oldCursorY := -1;
      maxX := x + w - 2;
      minX := x + 1;
      maxY := y + h - 2;
      minY := y + 1;
      dX := w - 3;
      dY := h - 3;
      xGridInterval := 0.0;
      yGridInterval := 0.0;
      yGridStart := 0.0;
      oldValX := x0;
      this.tft := tft;
      drawCursor := false;
      numDraw := 0;
      new;
      SetAxisColor(255, 255, 255);
      SetBackgroundColor(12, 12, 12);
      SetLineColor(255, 0, 0);
      SetGridColor(220, 220, 220);
    }

    method SetAxisColor(r: Byte, g: Byte, b: Byte)
      modifies this
      ensures View() == old(View()).(palette := old(View()).palette.(axis := Rgb(r, g, b)))
    {
      axisColor := Rgb(r, g, b);
    }

    method SetBackgroundColor(r: Byte, g: Byte, b: Byte)
      modifies this
      ensures View() == old(View()).(palette := old(View()).palette.(background := Rgb(r, g, b)))
    {
      backgroundColor := Rgb(r, g, b);
    }

    method SetLineColor(r: Byte, g: Byte, b: Byte)
      modifies this
      ensures View() == old(View()).(palette := old(View()).palette.(line := Rgb(r, g, b)))
    {
      lineColor := Rgb(r, g, b);
    }

    method SetGridColor(r: Byte, g: Byte, b: Byte)
      modifies this
      ensures View() == old(View()).(palette := old(View()).palette.(grid := Rgb(r, g, b)))
    {
      gridColor := Rgb(r, g, b);
    }

    /** `setXGridInterval`; 0 turns the X grid off. A negative interval
        would make `addData`'s grid loop run forever. */
    method SetXGridInterval(ival: real)
      requires Valid() && ival >= 0.0
      modifies this
      ensures Valid() && View() == old(View()).(xGrid := ival)
    {
      xGridInterval := ival;
    }

    /** `setYGridInterval`, with the search skipped for an interval of 0,
        which turns the Y grid off (the search as written never finishes
        then unless `y0` is 0; see `ChartSpec.ZeroIntervalNeverSettles`),
        and finding a `y0` that is itself a grid value (see
        `ChartSpec.SearchMissesNegativeFloor`). */
    method SetYGridInterval(ival: real)
      requires Valid() && ival >= 0.0
      modifies this
      ensures Valid() && View() == old(View()).(yGrid := ival, yGridStart := GridStart(ival, frame.y0))
    {
      yGridInterval := ival;
      yGridStart := 0.0;
      if ival != 0.0 {
        yGridStart := LowestGridLine(ival, frame.y0);
      }
    }

    method SetEraserPixelWidth(ival: int)
      requires Valid()
      modifies this
      ensures Valid() && View() == old(View()).(eraser := ival)
    {
      eraserWidth := ival;
    }

    method SetCursor(enable: bool)
      requires Valid()
      modifies this
      ensures Valid() && View() == old(View()).(drawCursor := enable)
    {
      drawCursor := enable;
    }

    /** `redrawAxis`: the plotting area cleared, the border outlined. */
    method RedrawAxis()
      modifies tft
      ensures tft.log == old(tft.log) + AxisCmds(View())
    {
      tft.SetColor(backgroundColor);
      tft.FillRect(frame.x + 1, frame.y + 1, frame.x + frame.w - 2, frame.y + frame.h - 2);
      tft.SetColor(axisColor);
      tft.DrawRect(frame.x, frame.y, frame.x + frame.w - 1, frame.y + frame.h - 1);
    }

    /** `addData(t, val)`: plot a sample taken at time `t >= 0`. */
    method AddData(t: real, val: real)
      requires Valid() && t >= 0.0
      modifies this, tft
      ensures Valid()
      ensures tft.log == old(tft.log) + AddDataCmds(old(View()), t, val)
      ensures View() == AddDataNext(old(View()), t, val)
    {
      var tw, cursorX, cursorY := Locate(t, val);
      if cursorX == oldCursorX {
        return;
      }
      var cursorYC := Constrain(cursorY, minY, maxY);
      ghost var c0 := View();
      assert AddDataCmds(c0, t, val)
          == XGridCmds(c0, tw) + YGridCmds(c0, cursorX) + SegmentCmds(c0, cursorX, cursorY, cursorYC);

      if xGridInterval != 0.0 {
        DrawXGrid(tw);
      }
      if yGridInterval != 0.0 {
        DrawYGrid(cursorX);
      }
      assert tft.log == old(tft.log) + XGridCmds(c0, tw) + YGridCmds(c0, cursorX);
      DrawSegment(cursorX, cursorY, cursorYC, tw);
      Regroup(old(tft.log), XGridCmds(c0, tw), YGridCmds(c0, cursorX), SegmentCmds(c0, cursorX, cursorY, cursorYC));
    }

    /** Where sample `(t, val)` lands: the time folded into the window, its
        column, and its (unclamped) row. */
    method Locate(t: real, val: real) returns (tw: real, cursorX: int, cursorY: int)
      requires Valid() && t >= 0.0
      ensures tw == WrapTime(t, frame.Span()) && 0.0 <= tw < frame.Span()
      ensures cursorX == Column(frame, tw) && minX <= cursorX <= maxX
      ensures cursorY == Row(frame, val)
    {
      tw := WrapTime(t, frame.xf - frame.x0);
      cursorX := Column(frame, tw);
      cursorY := Row(frame, val);
    }

    /** The part of `addData` after the grids: the new segment (or first
        pixel), the eraser window, the cursor colour, and the cursor moved
        to column `cursorX`, row `cursorYC` and time `tw`. */
    method DrawSegment(cursorX: int, cursorY: int, cursorYC: int, tw: real)
      requires Valid() && minX <= cursorX <= maxX && cursorX != oldCursorX
      requires cursorYC == Constrain(cursorY, minY, maxY) && 0.0 <= tw < frame.Span()
      modifies this, tft
      ensures Valid()
      ensures tft.log == old(tft.log) + SegmentCmds(old(View()), cursorX, cursorY, cursorYC)
      ensures View() == old(View()).(cursor := Cursor(cursorX, cursorYC, tw),
        numDraw := if old(oldCursorX) >= 0 && cursorX < old(oldCursorX) then (old(numDraw) + 1) % 256 else old(numDraw))
    {
      if oldCursorX < 0 {
        tft.SetColor(lineColor);
        tft.DrawPixel(cursorX, cursorYC);
        oldCursorX := cursorX;
        oldCursorY := cursorYC;
        oldValX := tw;
        return;
      }

      ghost var c0 := View();
      ghost var body: seq<Cmd>;
      if cursorX < oldCursorX {
        DrawWrap(cursorX, cursorY, cursorYC);
        body := [SetColor(backgroundColor), Fill(minX, minY, Min(cursorX + eraserWidth, maxX), maxY),
          SetColor(lineColor), Line(oldCursorX, oldCursorY, maxX, EdgeRow(c0, cursorX, cursorY)),
          Line(minX, EdgeRow(c0, cursorX, cursorY), cursorX, cursorYC)];
      } else {
        ghost var erase := if oldCursorX + eraserWidth < maxX || drawCursor then
             [SetColor(backgroundColor), Fill(oldCursorX + eraserWidth, minY, Min(cursorX + eraserWidth, maxX), maxY)]
           else [];
        ghost var seg := [SetColor(lineColor), Line(oldCursorX, oldCursorY, cursorX, cursorYC)];
        DrawAdvance(cursorX, cursorYC);
        Reassoc(old(tft.log), erase, seg);
        body := erase + seg;
      }
      assert tft.log == old(tft.log) + body;
      ghost var mid := tft.log;

      if drawCursor && cursorX < maxX {
        tft.SetColor(axisColor);
      }
      assert tft.log == mid + Overlay(c0, cursorX);
      Reassoc(old(tft.log), body, Overlay(c0, cursorX));
      assert body + Overlay(c0, cursorX) == SegmentCmds(c0, cursorX, cursorY, cursorYC);

      oldCursorX := cursorX;
      oldCursorY := cursorYC;
      oldValX := tw;
    }

    /** A wrap-around: the wrap counter bumped, the window at the start of
        the area erased, the old segment carried to the right edge and a new
        one drawn from the left edge, both on the interpolated edge row. */
    method DrawWrap(cursorX: int, cursorY: int, cursorYC: int)
      requires Valid() && minX <= cursorX < oldCursorX && 0 <= oldCursorX
      modifies this, tft
      ensures View() == old(View()).(numDraw := (old(numDraw) + 1) % 256)
      ensures tft.log == old(tft.log) + [SetColor(backgroundColor), Fill(minX, minY, Min(cursorX + eraserWidth, maxX), maxY),
        SetColor(lineColor), Line(oldCursorX, oldCursorY, maxX, EdgeRow(old(View()), cursorX, cursorY)),
        Line(minX, EdgeRow(old(View()), cursorX, cursorY), cursorX, cursorYC)]
    {
      numDraw := (numDraw + 1) % 256;
      var dxE := maxX - oldCursorX;
      var dyP := cursorY - oldCursorY;
      var dxP := cursorX - frame.x + 1 + dxE;
      var cursorYEnd := Constrain(oldCursorY + Trunc(EdgeShare(dxE, dxP, dyP)), frame.y + 1, frame.y + frame.h - 2);
      tft.SetColor(backgroundColor);
      tft.FillRect(minX, minY, Min(cursorX + eraserWidth, maxX), maxY);
      tft.SetColor(lineColor);
      tft.DrawLine(oldCursorX, oldCursorY, maxX, cursorYEnd);
      tft.DrawLine(minX, cursorYEnd, cursorX, cursorYC);
    }

    /** An ordinary step: the eraser window ahead of the old column cleared
        when it is not yet at the edge (or the cursor is shown), then one
        segment from the old point to the new one. */
    method DrawAdvance(cursorX: int, cursorYC: int)
      requires Valid()
      modifies tft
      ensures tft.log == old(tft.log)
        + (if oldCursorX + eraserWidth < maxX || drawCursor then
             [SetColor(backgroundColor), Fill(oldCursorX + eraserWidth, minY, Min(cursorX + eraserWidth, maxX), maxY)]
           else [])
        + [SetColor(lineColor), Line(oldCursorX, oldCursorY, cursorX, cursorYC)]
    {
      if oldCursorX + eraserWidth < maxX || drawCursor {
        tft.SetColor(backgroundColor);
        tft.FillRect(oldCursorX + eraserWidth, minY, Min(cursorX + eraserWidth, maxX), maxY);
      }
      tft.SetColor(lineColor);
      tft.DrawLine(oldCursorX, oldCursorY, cursorX, cursorYC);
    }

    /** The X-grid part of `addData`: skip to the first grid time at or
        after the last sample, then draw a dashed line at each grid time up
        to `t`. */
    method DrawXGrid(t: real)
      requires Valid() && xGridInterval > 0.0
      modifies tft
      ensures tft.log == old(tft.log) + XGridCmds(View(), t)
    {
      var gridPos := FirstXGridTime();
      while true
        invariant tft.log + XTicks(frame, gridColor, gridPos, t, xGridInterval)
               == old(tft.log) + XGridCmds(View(), t)
        decreases Remaining(gridPos, t, xGridInterval)
      {
        if gridPos > t {
          break;
        }
        RemainingStep(gridPos, t, xGridInterval);
        ghost var dashes := Dashes(Column(frame, gridPos), minY, maxY);
        Regroup(tft.log, [SetColor(gridColor)], dashes, XTicks(frame, gridColor, gridPos + xGridInterval, t, xGridInterval));
        DrawXTick(gridPos);
        gridPos := gridPos + xGridInterval;
      }
    }

    /** The first grid time at or after the last drawn sample, counting up
        from `x0`. */
    method FirstXGridTime() returns (gridPos: real)
      requires Valid() && xGridInterval > 0.0
      ensures gridPos == SkipTo(frame.x0, oldValX, xGridInterval)
    {
      gridPos := frame.x0;
      while gridPos < oldValX
        invariant SkipTo(gridPos, oldValX, xGridInterval) == SkipTo(frame.x0, oldValX, xGridInterval)
        decreases Remaining(gridPos, oldValX, xGridInterval)
      {
        RemainingStep(gridPos, oldValX, xGridInterval);
        gridPos := gridPos + xGridInterval;
      }
    }

    /** One X-grid line: the grid colour, then the dashes in the column of
        grid time `gridPos`. */
    method DrawXTick(gridPos: real)
      requires Valid()
      modifies tft
      ensures tft.log == old(tft.log) + [SetColor(gridColor)] + Dashes(Column(frame, gridPos), minY, maxY)
    {
      var dx := frame.xf - frame.x0;
      var gridCursorX := Min(Trunc(gridPos / dx * (dX as real)) + minX, maxX);
      assert gridCursorX == Column(frame, gridPos);
      tft.SetColor(gridColor);
      DrawDashes(gridCursorX);
    }

    /** One dashed vertical grid line: 2 pixels on, 2 off, from `minY`. */
    method DrawDashes(col: int)
      requires Valid()
      modifies tft
      ensures tft.log == old(tft.log) + Dashes(col, minY, maxY)
    {
      var gridCursorY := minY;
      while gridCursorY + 1 <= maxY
        invariant tft.log + Dashes(col, gridCursorY, maxY) == old(tft.log) + Dashes(col, minY, maxY)
        decreases maxY - gridCursorY
      {
        tft.DrawLine(col, gridCursorY, col, gridCursorY + 1);
        gridCursorY := gridCursorY + 4;
      }
    }

    /** The Y-grid part of `addData`: each horizontal grid line is extended
        over the columns the cursor has just passed. */
    method DrawYGrid(cursorX: int)
      requires Valid() && yGridInterval > 0.0
      modifies tft
      ensures tft.log == old(tft.log) + YGridCmds(View(), cursorX)
    {
      ghost var v := View();
      var yf, ival := frame.yf, yGridInterval;
      var gridPos := yGridStart;
      while true
        invariant View() == v
        invariant tft.log + YRows(v, gridPos, cursorX) == old(tft.log) + YGridCmds(v, cursorX)
        decreases Remaining(gridPos, yf, ival)
      {
        if gridPos > yf {
          break;
        }
        RemainingStep(gridPos, yf, ival);
        Regroup(tft.log, [SetColor(v.palette.grid)], YSweeps(v, Row(v.frame, gridPos), cursorX),
          YRows(v, gridPos + ival, cursorX));
        DrawYGridLine(gridPos, cursorX);
        gridPos := gridPos + ival;
      }
    }

    /** One Y-grid line: the grid colour, then the dashes on the row of
        value `gridPos` over the columns the cursor has just passed. */
    method DrawYGridLine(gridPos: real, cursorX: int)
      requires Valid()
      modifies tft
      ensures tft.log == old(tft.log) + [SetColor(gridColor)] + YSweeps(View(), Row(frame, gridPos), cursorX)
    {
      var gridCursorY := Trunc((frame.yf - gridPos) / (frame.yf - frame.y0) * (dY as real)) + minY;
      assert gridCursorY == Row(frame, gridPos);
      tft.SetColor(gridColor);
      var gridCursorX;
      if oldCursorX < 0 {
        gridCursorX := minX;
      } else if oldCursorX > cursorX {
        DrawDashRow(gridCursorY, oldCursorX + 1, maxX);
        gridCursorX := minX;
      } else {
        gridCursorX := oldCursorX + 1;
      }
      DrawDashRow(gridCursorY, gridCursorX, cursorX);
    }

    /** The dashed pixels of a horizontal grid line from column `lo` to
        column `hi`. */
    method DrawDashRow(row: int, lo: int, hi: int)
      requires Valid()
      modifies tft
      ensures tft.log == old(tft.log) + Sweep(row, lo, hi, minX)
    {
      var left := minX;
      var gridCursorX := lo;
      while gridCursorX <= hi
        invariant tft.log + Sweep(row, gridCursorX, hi, left) == old(tft.log) + Sweep(row, lo, hi, left)
        decreases hi - gridCursorX
      {
        var dashTemp := CRem(gridCursorX - left, 4);
        if dashTemp == 0 || dashTemp == 1 {
          DashStep(tft.log, row, gridCursorX, hi, left);
          tft.DrawPixel(gridCursorX, row);
        } else {
          assert Sweep(row, gridCursorX, hi, left) == Sweep(row, gridCursorX + 1, hi, left);
        }
        gridCursorX := gridCursorX + 1;
      }
    }

    /** `drawAAPixel`: one pixel in the line colour blended toward the
        background by `colorGrad` / 255. */
    method DrawAAPixel(x1: int, y1: int, colorGrad: int)
      modifies tft
      ensures tft.log == old(tft.log) + [SetColor(AntiAlias.Blend(colorGrad, lineColor, backgroundColor)), Pixel(x1, y1)]
    {
      var r := AntiAlias.Mix(colorGrad, lineColor.r, backgroundColor.r);
      var g := AntiAlias.Mix(colorGrad, lineColor.g, backgroundColor.g);
      var b := AntiAlias.Mix(colorGrad, lineColor.b, backgroundColor.b);
      tft.SetColor(Rgb(r, g, b));
      tft.DrawPixel(x1, y1);
    }

    /** `drawAALine`: Wu's anti-aliased line with a 16-bit error
        accumulator. The coordinate differences fit the source's `int16_t`
        `DeltaX` and `DeltaY`. */
    method DrawAALine(x1: int, y1: int, x2: int, y2: int)
      requires AntiAlias.Abs(x2 - x1) <= 0x7FFF && AntiAlias.Abs(y2 - y1) <= 0x7FFF
      modifies tft
      ensures tft.log == old(tft.log) + AntiAlias.Render(AntiAlias.PlanOf(x1, y1, x2, y2), lineColor, backgroundColor)
    {
      var sx, sy, ex, ey := x1, y1, x2, y2;
      if sy > ey {
        sx, sy, ex, ey := x2, y2, x1, y1;
      }
      DrawOrdered(sx, sy, ex, ey);
    }

    /** The rest of `drawAALine`, once the start point is the upper one. */
    method DrawOrdered(sx: int, sy: int, ex: int, ey: int)
      requires sy <= ey && AntiAlias.Abs(ex - sx) <= 0x7FFF && ey - sy <= 0x7FFF
      modifies tft
      ensures tft.log == old(tft.log) + AntiAlias.Render(AntiAlias.PlanFrom(sx, sy, ex, ey), lineColor, backgroundColor)
    {
      tft.SetColor(lineColor);
      tft.DrawPixel(sx, sy);
      var deltaX := ex - sx;
      var xDir := 1;
      if deltaX < 0 {
        xDir := -1;
        deltaX := -deltaX;
      }
      var deltaY := ey - sy;
      if deltaY == 0 || deltaX == 0 || deltaX == deltaY {
        // horizontal, vertical and diagonal lines are drawn by the driver
        tft.DrawLine(sx, sy, ex, ey);
        assert AntiAlias.PlanFrom(sx, sy, ex, ey) == AntiAlias.Straight(sx, sy, ex, ey);
        assert tft.log == old(tft.log) + AntiAlias.Render(AntiAlias.PlanFrom(sx, sy, ex, ey), lineColor, backgroundColor);
        return;
      }
      ghost var head := tft.log;
      assert head == old(tft.log) + [SetColor(lineColor), Pixel(sx, sy)];
      ShadeSteps(sx, sy, ex, ey, xDir, deltaX, deltaY);
      ghost var mid := tft.log;
      DrawAAPixel(ex, ey, 0);
      assert tft.log == mid + AntiAlias.ShadeCmds(AntiAlias.Shade(ex, ey, 0), lineColor, backgroundColor);
      Regroup(old(tft.log), [SetColor(lineColor), Pixel(sx, sy)],
        AntiAlias.StepsCmds(AntiAlias.LineSteps(sx, sy, ex, ey), lineColor, backgroundColor),
        AntiAlias.ShadeCmds(AntiAlias.Shade(ex, ey, 0), lineColor, backgroundColor));
    }

    /** The shaded steps of `drawAALine`, along the major axis. */
    method ShadeSteps(sx: int, sy: int, ex: int, ey: int, xDir: int, deltaX: int, deltaY: int)
      requires deltaY == ey - sy && deltaX == AntiAlias.Abs(ex - sx) && xDir == (if ex - sx >= 0 then 1 else -1)
      requires 0 < deltaY <= 0x7FFF && 0 < deltaX <= 0x7FFF && deltaX != deltaY
      modifies tft
      ensures tft.log == old(tft.log) + AntiAlias.StepsCmds(AntiAlias.LineSteps(sx, sy, ex, ey), lineColor, backgroundColor)
    {
      if deltaY > deltaX {
        var errorAdj := deltaX * AntiAlias.One / deltaY;
        assert errorAdj == AntiAlias.ErrorAdj(deltaX, deltaY);
        assert AntiAlias.LineSteps(sx, sy, ex, ey) == AntiAlias.StepsFrom(sx, sy, xDir, true, errorAdj, 0, deltaY - 1);
        ShadeYMajor(sx, sy, xDir, errorAdj, deltaY);
      } else {
        var errorAdj := deltaY * AntiAlias.One / deltaX;
        assert errorAdj == AntiAlias.ErrorAdj(deltaY, deltaX);
        assert AntiAlias.LineSteps(sx, sy, ex, ey) == AntiAlias.StepsFrom(sx, sy, xDir, false, errorAdj, 0, deltaX - 1);
        ShadeXMajor(sx, sy, xDir, errorAdj, deltaX);
      }
    }

    /** The Y-major branch of `drawAALine`: one step per row strictly
        between the endpoints, `errorAdj` being the column advance per row
        as a 16-bit fraction. */
    method ShadeYMajor(sx: int, sy: int, xDir: int, errorAdj: int, deltaY: int)
      requires xDir == 1 || xDir == -1
      requires 0 < errorAdj < AntiAlias.One && 0 < deltaY
      modifies tft
      ensures tft.log == old(tft.log) + AntiAlias.StepsCmds(
        AntiAlias.StepsFrom(sx, sy, xDir, true, errorAdj, 0, deltaY - 1), lineColor, backgroundColor)
    {
      ghost var n := deltaY - 1;
      ghost var total := old(tft.log) + AntiAlias.StepsCmds(AntiAlias.StepsFrom(sx, sy, xDir, true, errorAdj, 0, n), lineColor, backgroundColor);
      var errorAcc := 0;
      var x, y := sx, sy;
      ghost var k: nat := 0;
      var remaining := deltaY - 1;
      while remaining != 0
        invariant 0 <= k <= n && remaining == n - k
        invariant errorAcc == AntiAlias.Acc(k, errorAdj)
        invariant x == AntiAlias.Toward(sx, xDir, AntiAlias.Carry(k, errorAdj)) && y == sy + k
        invariant tft.log + AntiAlias.StepsCmds(AntiAlias.StepsFrom(sx, sy, xDir, true, errorAdj, k, n), lineColor, backgroundColor) == total
        decreases remaining
      {
        AntiAlias.StepsCmdsNext(sx, sy, xDir, true, errorAdj, k, n, lineColor, backgroundColor);
        ghost var st := AntiAlias.StepAt(sx, sy, xDir, true, errorAdj, k + 1);
        Regroup(tft.log, AntiAlias.ShadeCmds(st.near, lineColor, backgroundColor), AntiAlias.ShadeCmds(st.far, lineColor, backgroundColor),
          AntiAlias.StepsCmds(AntiAlias.StepsFrom(sx, sy, xDir, true, errorAdj, k + 1, n), lineColor, backgroundColor));
        errorAcc, x, y := ShadeRow(sx, sy, xDir, errorAdj, k, errorAcc, x, y);
        k := k + 1;
        remaining := remaining - 1;
      }
    }

    /** One pass of the Y-major loop: advance the accumulator, step the
        column on turnover, move down a row and shade the pixel pair. */
    method ShadeRow(ghost sx: int, ghost sy: int, xDir: int, errorAdj: int, ghost k: nat, errorAcc0: int, x0: int, y0: int)
      returns (errorAcc: int, x: int, y: int)
      requires xDir == 1 || xDir == -1
      requires 0 < errorAdj < AntiAlias.One
      requires errorAcc0 == AntiAlias.Acc(k, errorAdj)
      requires x0 == AntiAlias.Toward(sx, xDir, AntiAlias.Carry(k, errorAdj)) && y0 == sy + k
      modifies tft
      ensures errorAcc == AntiAlias.Acc(k + 1, errorAdj)
      ensures x == AntiAlias.Toward(sx, xDir, AntiAlias.Carry(k + 1, errorAdj)) && y == sy + k + 1
      ensures var st := AntiAlias.StepAt(sx, sy, xDir, true, errorAdj, k + 1);
        tft.log == old(tft.log) + AntiAlias.ShadeCmds(st.near, lineColor, backgroundColor) + AntiAlias.ShadeCmds(st.far, lineColor, backgroundColor)
    {
      AntiAlias.YMajorNext(sx, sy, xDir, errorAdj, k);
      x, y := x0, y0;
      errorAcc := (errorAcc0 + errorAdj) % 0x1_0000;
      if errorAcc <= errorAcc0 {
        x := x + xDir;
      }
      y := y + 1;
      var weighting := errorAcc / 256;
      DrawAAPixel(x, y, weighting);
      DrawAAPixel(x + xDir, y, AntiAlias.Complement(weighting));
    }

    /** The X-major branch of `drawAALine`: one step per column strictly
        between the endpoints, `errorAdj` being the row advance per column
        as a 16-bit fraction. */
    method ShadeXMajor(sx: int, sy: int, xDir: int, errorAdj: int, deltaX: int)
      requires xDir == 1 || xDir == -1
      requires 0 < errorAdj < AntiAlias.One && 0 < deltaX
      modifies tft
      ensures tft.log == old(tft.log) + AntiAlias.StepsCmds(
        AntiAlias.StepsFrom(sx, sy, xDir, false, errorAdj, 0, deltaX - 1), lineColor, backgroundColor)
    {
      ghost var n := deltaX - 1;
      ghost var total := old(tft.log) + AntiAlias.StepsCmds(AntiAlias.StepsFrom(sx, sy, xDir, false, errorAdj, 0, n), lineColor, backgroundColor);
      var errorAcc := 0;
      var x, y := sx, sy;
      ghost var k: nat := 0;
      var remaining := deltaX - 1;
      while remaining != 0
        invariant 0 <= k <= n && remaining == n - k
        invariant errorAcc == AntiAlias.Acc(k, errorAdj)
        invariant x == AntiAlias.Toward(sx, xDir, k) && y == sy + AntiAlias.Carry(k, errorAdj)
        invariant tft.log + AntiAlias.StepsCmds(AntiAlias.StepsFrom(sx, sy, xDir, false, errorAdj, k, n), lineColor, backgroundColor) == total
        decreases remaining
      {
        AntiAlias.StepsCmdsNext(sx, sy, xDir, false, errorAdj, k, n, lineColor, backgroundColor);
        ghost var st := AntiAlias.StepAt(sx, sy, xDir, false, errorAdj, k + 1);
        Regroup(tft.log, AntiAlias.ShadeCmds(st.near, lineColor, backgroundColor), AntiAlias.ShadeCmds(st.far, lineColor, backgroundColor),
          AntiAlias.StepsCmds(AntiAlias.StepsFrom(sx, sy, xDir, false, errorAdj, k + 1, n), lineColor, backgroundColor));
        errorAcc, x, y := ShadeColumn(sx, sy, xDir, errorAdj, k, errorAcc, x, y);
        k := k + 1;
        remaining := remaining - 1;
      }
    }

    /** One pass of the X-major loop: advance the accumulator, step the row
        on turnover, move one column along and shade the pixel pair. */
    method ShadeColumn(ghost sx: int, ghost sy: int, xDir: int, errorAdj: int, ghost k: nat, errorAcc0: int, x0: int, y0: int)
      returns (errorAcc: int, x: int, y: int)
      requires xDir == 1 || xDir == -1
      requires 0 < errorAdj < AntiAlias.One
      requires errorAcc0 == AntiAlias.Acc(k, errorAdj)
      requires x0 == AntiAlias.Toward(sx, xDir, k) && y0 == sy + AntiAlias.Carry(k, errorAdj)
      modifies tft
      ensures errorAcc == AntiAlias.Acc(k + 1, errorAdj)
      ensures x == AntiAlias.Toward(sx, xDir, k + 1) && y == sy + AntiAlias.Carry(k + 1, errorAdj)
      ensures var st := AntiAlias.StepAt(sx, sy, xDir, false, errorAdj, k + 1);
        tft.log == old(tft.log) + AntiAlias.ShadeCmds(st.near, lineColor, backgroundColor) + AntiAlias.ShadeCmds(st.far, lineColor, backgroundColor)
    {
      AntiAlias.XMajorNext(sx, sy, xDir, errorAdj, k);
      x, y := x0, y0;
      errorAcc := (errorAcc0 + errorAdj) % 0x1_0000;
      if errorAcc <= errorAcc0 {
        y := y + 1;
      }
      x := x + xDir;
      var weighting := errorAcc / 256;
      DrawAAPixel(x, y, weighting);
      DrawAAPixel(x, y + 1, AntiAlias.Complement(weighting));
    }
  }
}
