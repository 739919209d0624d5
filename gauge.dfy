/** The linear gauge (`CProgressBar`): a horizontal bar inside a framed
    rectangle, redrawn incrementally as values arrive, optionally growing
    out of a baseline column, and turning to the alert colour past the
    maximum alert column. */
module Gauge {
  import opened CArith
  import opened Display
  import opened GaugeSpec

  class ProgressBar {
    /** `barDimensions` less `xZ`, the colours and the display. */
    const x: int
    const y: int
    const w: int
    const h: int
    const x0: real
    const xf: real
    const palette: Palette
    const tft: Surface

    var xZ: real
    var margin: int
    var oldVal: real
    var oldXVal: int
    var maxAlertVal: real
    var minAlertVal: real
    var maxAlertX: int
    var minAlertX: int
    var minX: int
    var maxX: int
    var minY: int
    var maxY: int
    var baseX: int

    /** The gauge state as a value, for the specifications in `GaugeSpec`. */
    function View(): Gauge
      reads this
    {
      Gauge(x, y, w, h, x0, xf, xZ, palette, margin, minX, maxX, minY, maxY,
            oldVal, oldXVal, maxAlertVal, minAlertVal, maxAlertX, minAlertX, baseX)
    }

    predicate Valid()
      reads this
    {
      View().Valid()
    }

    /** A gauge in rectangle `(x, y, w, h)` for values `x0` to `xf`. */
    constructor (x: int, y: int, w: int, h: int, x0: real, xf: real, tft: Surface)
      requires x0 != xf
      ensures Valid() && this.tft == tft
      ensures View() == Initial(x, y, w, h, x0, xf)
    {
      this.x, this.y, this.w, this.h := x, y, w, h;
      this.x0, this.xf := x0, xf;
      palette := Palette(Rgb(0xFF, 0xFF, 0xFF), Rgb(0, 0, 0), Rgb(0, 0xEF, 0), Rgb(0xEF, 0, 0));
      this.tft := tft;
      xZ, oldVal := x0, x0;
      margin, minX, maxX, minY, maxY, oldXVal := 0, 0, 0, 0, 0, 0;
      maxAlertVal, minAlertVal, maxAlertX, minAlertX, baseX := 0.0, 0.0, 0, 0, -1;
      new;
      ghost var g0 := View();
      SetMargin(1);
      ghost var g1 := View();
      assert g1 == WithMargin(g0, 1);
      oldVal := x0;
      oldXVal := minX - 1;
      xZ := x0;
      baseX := -1;
      ghost var g2 := View();
      assert g2 == g1.(oldVal := x0, oldXVal := g1.minX - 1, xZ := x0, baseX := -1);
      SetMaxAlert(xf + 1.0);
      assert View() == WithMaxAlert(g2, xf + 1.0);
      SetMinAlert(x0 - 1.0);
    }

    method SetMargin(m: int)
      modifies this
      ensures View() == WithMargin(old(View()), m)
    {
      margin := m;
      minX := x + m + 1;
      maxX := x + w - 1 - m - 1;
      minY := y + m + 1;
      maxY := y + h - 1 - m - 1;
    }

    method SetBaseValue(v: real)
      requires Valid()
      modifies this
      ensures View() == WithBase(old(View()), v)
    {
      xZ := v;
      oldVal := v;
      baseX := Interpolate(View(), v);
      if baseX < minX || baseX > maxX {
        baseX := -1;
        oldXVal := minX - 1;
      } else {
        oldXVal := baseX;
      }
    }

    method SetMaxAlert(v: real)
      requires Valid()
      modifies this
      ensures View() == WithMaxAlert(old(View()), v)
    {
      maxAlertVal := v;
      maxAlertX := Interpolate(View(), v);
    }

    method SetMinAlert(v: real)
      requires Valid()
      modifies this
      ensures View() == WithMinAlert(old(View()), v)
    {
      minAlertVal := v;
      minAlertX := Interpolate(View(), v);
    }

    /** One `setColor` and `fillRect` over the rows of the area. */
    method DrawBand(b: Band)
      modifies tft
      ensures tft.log == old(tft.log) + Paint([b], palette, minY, maxY)
    {
      tft.SetColor(InkColor(palette, b.ink));
      tft.FillRect(b.x1, minY, b.x2, maxY);
    }

    /** Show value `val`, drawing only the columns that change. */
    method Update(val: real)
      requires Valid()
      modifies this, tft
      ensures tft.log == old(tft.log) + UpdateCmds(old(View()), val)
      ensures View() == UpdateNext(old(View()), val)
    {
      var cursorX := Constrain(Interpolate(View(), val), minX - 1, maxX + 1);
      if cursorX == oldXVal {
        return;
      }
      if baseX >= 0 {
        cursorX := Max(cursorX, minX);
        UpdateBaseline(cursorX);
      } else if cursorX < oldXVal {
        if oldXVal < minX {
          return;
        }
        DrawBand(Band(Erase, cursorX + 1, oldXVal));
      } else {
        UpdateGrow(cursorX);
      }
      oldVal := val;
      oldXVal := cursorX;
    }

    /** The baseline branch of `update`, for the column already raised to
        `minX`. */
    method UpdateBaseline(c: int)
      modifies tft
      ensures tft.log == old(tft.log) + Paint(BaselineBands(View(), c), palette, minY, maxY)
    {
      ghost var g := View();
      ghost var first: seq<Band>, second: seq<Band> := [], [];
      var prev, base := oldXVal, baseX;
      if c < prev {
        if c <= base {
          if prev > base {
            DrawBand(Band(Erase, base + 1, prev));
            first := [Band(Erase, base + 1, prev)];
          }
          if c < base {
            DrawBand(Band(Bar, Min(base - 1, prev - 1), c));
            second := [Band(Bar, Min(base - 1, prev - 1), c)];
          }
        } else {
          DrawBand(Band(Erase, c + 1, prev));
          first := [Band(Erase, c + 1, prev)];
        }
      } else {
        if c >= base {
          if prev < base {
            DrawBand(Band(Erase, base - 1, prev));
            first := [Band(Erase, base - 1, prev)];
          }
          if c > base {
            DrawBand(Band(Bar, Max(base + 1, prev + 1), c));
            second := [Band(Bar, Max(base + 1, prev + 1), c)];
          }
        } else {
          DrawBand(Band(Erase, c - 1, prev));
          first := [Band(Erase, c - 1, prev)];
        }
      }
      assert BaselineBands(g, c) == first + second;
      PaintConcat(first, second, palette, minY, maxY);
    }

    /** Growing without a baseline: the bar colour up to the column before
        `maxAlertX`, the alert colour from it on. */
    method UpdateGrow(c: int)
      modifies tft
      ensures tft.log == old(tft.log) + Paint(GrowBands(View(), c), palette, minY, maxY)
    {
      ghost var first: seq<Band>, second: seq<Band> := [], [];
      if oldXVal < maxAlertX - 1 {
        DrawBand(Band(Bar, oldXVal + 1, Min(c, maxAlertX - 1)));
        first := [Band(Bar, oldXVal + 1, Min(c, maxAlertX - 1))];
      }
      if c >= maxAlertX {
        DrawBand(Band(Alert, Max(oldXVal + 1, maxAlertX), c));
        second := [Band(Alert, Max(oldXVal + 1, maxAlertX), c)];
      }
      PaintConcat(first, second, palette, minY, maxY);
    }

    /** Draw the frame, clear the area and mark the baseline. */
    method Redraw()
      modifies tft
      ensures tft.log == old(tft.log) + RedrawCmds(View())
    {
      tft.SetColor(palette.frame);
      tft.DrawRect(x, y, x + w - 1, y + h - 1);
      tft.SetColor(palette.background);
      tft.FillRect(minX, minY, maxX, maxY);
      if baseX >= -1 {
        tft.SetColor(palette.frame);
        tft.DrawLine(baseX, minY, baseX, maxY);
      }
    }
  }
}
