/** What the linear gauge (`CProgressBar`) draws on each call, written as
    functions of a snapshot of its state. `Gauge.ProgressBar` carries out the
    same steps on its fields and is proved to append exactly these commands.
    Floating-point values are exact reals; `Trunc` stands for the C `(int)`
    cast. */
module GaugeSpec {
  import opened CArith
  import opened Display

  datatype Palette = Palette(frame: Rgb, background: Rgb, bar: Rgb, alert: Rgb)

  /** The state of a `CProgressBar`: its rectangle and value range, the
      margin and the drawable area it gives, the last drawn value and
      column, the two alert thresholds with their columns, and the
      baseline column (-1 for none). */
  datatype Gauge = Gauge(
    x: int, y: int, w: int, h: int,
    x0: real, xf: real, xZ: real,
    palette: Palette,
    margin: int, minX: int, maxX: int, minY: int, maxY: int,
    oldVal: real, oldXVal: int,
    maxAlertVal: real, minAlertVal: real, maxAlertX: int, minAlertX: int,
    baseX: int)
  {
    /** A non-empty value range, so that `interpolate` never divides by
        zero; `xf` below `x0` gives a gauge that grows for falling values. */
    predicate Valid()
    {
      x0 != xf
    }
  }

  // ---------------------------------------------------------------------------
  // Geometry

  /** `setMargin(m)`: the drawable area is the rectangle less a one-pixel
      frame and `m` pixels of margin on every side. */
  function WithMargin(g: Gauge, m: int): (r: Gauge)
    ensures r.minX == g.x + m + 1 && r.maxX == g.x + g.w - m - 2
    ensures r.minY == g.y + m + 1 && r.maxY == g.y + g.h - m - 2
    ensures r == g.(margin := m, minX := r.minX, maxX := r.maxX, minY := r.minY, maxY := r.maxY)
  {
    g.(margin := m,
       minX := g.x + m + 1, maxX := g.x + g.w - 1 - m - 1,
       minY := g.y + m + 1, maxY := g.y + g.h - 1 - m - 1)
  }

  /** `interpolate(val)`: the column of a value, `x0` just left of the
      area and `xf` on its last column. */
  function Interpolate(g: Gauge, val: real): int
    requires g.Valid()
  {
    Trunc(Scale(g, val)) + g.minX - 1
  }

  /** How far along the area a value lies, in columns, before truncation. */
  function Scale(g: Gauge, val: real): real
    requires g.Valid()
  {
    (val - g.x0) / (g.xf - g.x0) * ((g.maxX - g.minX + 1) as real)
  }

  /** The ends of the value range land on the column before the area and
      on its last column. */
  lemma InterpolateEnds(g: Gauge)
    requires g.Valid()
    ensures Interpolate(g, g.x0) == g.minX - 1
    ensures Interpolate(g, g.xf) == g.maxX
  {
    var n := (g.maxX - g.minX + 1) as real;
    assert (g.x0 - g.x0) / (g.xf - g.x0) * n == 0.0;
    assert (g.xf - g.x0) / (g.xf - g.x0) == 1.0;
    TruncOfInt(0);
    TruncOfInt(g.maxX - g.minX + 1);
  }

  /** For a rising range on an area at least zero columns wide, a larger
      value never lands on an earlier column. */
  lemma InterpolateMonotone(g: Gauge, v: real, v': real)
    requires g.x0 < g.xf && g.minX <= g.maxX + 1 && v <= v'
    ensures Interpolate(g, v) <= Interpolate(g, v')
  {
    ScaleMonotone(g, v, v');
    TruncMonotone(Scale(g, v), Scale(g, v'));
  }

  lemma ScaleMonotone(g: Gauge, v: real, v': real)
    requires g.x0 < g.xf && g.minX <= g.maxX + 1 && v <= v'
    ensures Scale(g, v) <= Scale(g, v')
  {
    var span := g.xf - g.x0;
    DivMonotone(v - g.x0, v' - g.x0, span);
    MulLeReal((v - g.x0) / span, (v' - g.x0) / span, (g.maxX - g.minX + 1) as real);
  }

  lemma DivMonotone(a: real, b: real, d: real)
    requires a <= b && d > 0.0
    ensures a / d <= b / d
  {
    MulLeReal(a, b, 1.0 / d);
    assert a / d == a * (1.0 / d) && b / d == b * (1.0 / d);
  }

  // ---------------------------------------------------------------------------
  // The state a new gauge starts in

  /** The constructor: colours, a margin of 1, the last value at `x0` on
      the column before the area, no baseline, and the alert thresholds
      one unit outside the range. */
  function Initial(x: int, y: int, w: int, h: int, x0: real, xf: real): (g: Gauge)
    requires x0 != xf
    ensures g.Valid()
  {
    var g0 := Gauge(x, y, w, h, x0, xf, x0,
                    Palette(Rgb(0xFF, 0xFF, 0xFF), Rgb(0, 0, 0), Rgb(0, 0xEF, 0), Rgb(0xEF, 0, 0)),
                    0, 0, 0, 0, 0, x0, 0, 0.0, 0.0, 0, 0, -1);
    var g1 := WithMargin(g0, 1);
    var g2 := g1.(oldVal := x0, oldXVal := g1.minX - 1, xZ := x0, baseX := -1);
    var g3 := WithMaxAlert(g2, xf + 1.0);
    WithMinAlert(g3, x0 - 1.0)
  }

  /** `setMaxAlert`: values whose column reaches `maxAlertX` are drawn in
      the alert colour. */
  function WithMaxAlert(g: Gauge, v: real): (r: Gauge)
    requires g.Valid()
    ensures r.Valid() && r.minX == g.minX && r.maxX == g.maxX
  {
    g.(maxAlertVal := v, maxAlertX := Interpolate(g, v))
  }

  /** `setMinAlert`: the column is recorded; `update` does not use it. */
  function WithMinAlert(g: Gauge, v: real): (r: Gauge)
    requires g.Valid()
    ensures r.Valid() && r.minX == g.minX && r.maxX == g.maxX
  {
    g.(minAlertVal := v, minAlertX := Interpolate(g, v))
  }

  /** A new gauge has the area the margin of 1 gives, nothing drawn, no
      baseline, and alert columns outside the drawn range: the maximum
      alert at or past the last column and the minimum alert before the
      first. */
  lemma InitialState(x: int, y: int, w: int, h: int, x0: real, xf: real)
    requires x0 < xf && w >= 4
    ensures var g := Initial(x, y, w, h, x0, xf);
      g.minX == x + 2 && g.maxX == x + w - 3 && g.minY == y + 2 && g.maxY == y + h - 3 &&
      g.oldXVal == g.minX - 1 && g.oldVal == x0 && g.baseX == -1 &&
      g.maxAlertX >= g.maxX && g.minAlertX <= g.minX - 1
  {
    var g := Initial(x, y, w, h, x0, xf);
    InterpolateEnds(g);
    InterpolateMonotone(g, xf, xf + 1.0);
    InterpolateMonotone(g, x0 - 1.0, x0);
  }

  /** `setBaseValue(xZ)`: the bar is drawn from the baseline column when
      that column lies in the area, otherwise there is no baseline and the
      bar starts before the first column. */
  function WithBase(g: Gauge, xZ: real): (r: Gauge)
    requires g.Valid()
    ensures r.Valid() && r.oldVal == xZ && r.xZ == xZ
    ensures g.minX <= Interpolate(g, xZ) <= g.maxX ==> r.baseX == r.oldXVal == Interpolate(g, xZ)
    ensures !(g.minX <= Interpolate(g, xZ) <= g.maxX) ==> r.baseX == -1 && r.oldXVal == g.minX - 1
  {
    var b := Interpolate(g, xZ);
    if b < g.minX || b > g.maxX then g.(xZ := xZ, oldVal := xZ, baseX := -1, oldXVal := g.minX - 1)
    else g.(xZ := xZ, oldVal := xZ, baseX := b, oldXVal := b)
  }

  // ---------------------------------------------------------------------------
  // update

  /** Which colour a fill uses. */
  datatype Ink = Erase | Bar | Alert

  /** One `setColor` and `fillRect` over columns `x1` to `x2` (in either
      order) and all rows of the area. */
  datatype Band = Band(ink: Ink, x1: int, x2: int)

  predicate Covers(b: Band, col: int)
  {
    Min(b.x1, b.x2) <= col <= Max(b.x1, b.x2)
  }

  function InkColor(p: Palette, ink: Ink): Rgb
  {
    match ink
    case Erase => p.background
    case Bar => p.bar
    case Alert => p.alert
  }

  /** The driver calls of a run of bands. */
  function Paint(bands: seq<Band>, p: Palette, minY: int, maxY: int): (cmds: seq<Cmd>)
    ensures |cmds| == 2 * |bands|
  {
    if bands == [] then []
    else [SetColor(InkColor(p, bands[0].ink)), Fill(bands[0].x1, minY, bands[0].x2, maxY)]
         + Paint(bands[1..], p, minY, maxY)
  }

  /** Painting two runs one after the other paints their concatenation. */
  lemma {:induction false} PaintConcat(a: seq<Band>, b: seq<Band>, p: Palette, minY: int, maxY: int)
    ensures Paint(a + b, p, minY, maxY) == Paint(a, p, minY, maxY) + Paint(b, p, minY, maxY)
    decreases |a|
  {
    if a != [] {
      PaintConcat(a[1..], b, p, minY, maxY);
      assert (a + b)[1..] == a[1..] + b;
    } else {
      assert a + b == b;
    }
  }

  /** The projected column, held within one column of the area either side. */
  function Column(g: Gauge, val: real): (c: int)
    requires g.Valid()
    ensures g.minX <= g.maxX + 2 ==> g.minX - 1 <= c <= g.maxX + 1
    ensures g.minX - 1 <= Interpolate(g, val) <= g.maxX + 1 ==> c == Interpolate(g, val)
  {
    Constrain(Interpolate(g, val), g.minX - 1, g.maxX + 1)
  }

  /** `update` with a baseline, for the column `c` already raised to
      `minX`: moving toward the baseline erases, moving away from it draws
      the bar, and crossing it does both. */
  function BaselineBands(g: Gauge, c: int): seq<Band>
  {
    var prev, base := g.oldXVal, g.baseX;
    if c < prev then
      if c <= base then
        (if prev > base then [Band(Erase, base + 1, prev)] else []) +
        (if c < base then [Band(Bar, Min(base - 1, prev - 1), c)] else [])
      else [Band(Erase, c + 1, prev)]
    else
      if c >= base then
        (if prev < base then [Band(Erase, base - 1, prev)] else []) +
        (if c > base then [Band(Bar, Max(base + 1, prev + 1), c)] else [])
      else [Band(Erase, c - 1, prev)]
  }

  /** `update` without a baseline, growing to column `c`: the bar colour up
      to the column before `maxAlertX`, the alert colour from there on. */
  function GrowBands(g: Gauge, c: int): seq<Band>
  {
    (if g.oldXVal < g.maxAlertX - 1 then [Band(Bar, g.oldXVal + 1, Min(c, g.maxAlertX - 1))] else []) +
    (if c >= g.maxAlertX then [Band(Alert, Max(g.oldXVal + 1, g.maxAlertX), c)] else [])
  }

  /** The fills of `update(val)`. The test for an unchanged column comes
      before the column is raised to `minX` in baseline mode, so a bar that
      already ends at `minX` can reach `BaselineBands` with the column it
      already has (see `BaselineFloorErasesBar`). */
  function UpdateBands(g: Gauge, val: real): seq<Band>
    requires g.Valid()
  {
    var c := Column(g, val);
    if c == g.oldXVal then []
    else if g.baseX >= 0 then BaselineBands(g, Max(c, g.minX))
    else if c < g.oldXVal then
      if g.oldXVal < g.minX then [] else [Band(Erase, c + 1, g.oldXVal)]
    else GrowBands(g, c)
  }

  function UpdateCmds(g: Gauge, val: real): seq<Cmd>
    requires g.Valid()
  {
    Paint(UpdateBands(g, val), g.palette, g.minY, g.maxY)
  }

  /** The state after `update(val)`: unchanged when the column is unchanged
      or a bar with nothing drawn shrinks without a baseline; otherwise the value and the
      column, raised to `minX` in baseline mode, are recorded. */
  function UpdateNext(g: Gauge, val: real): (r: Gauge)
    requires g.Valid()
    ensures r.Valid()
    ensures r == g || r == g.(oldVal := val, oldXVal := r.oldXVal)
    ensures r != g && g.minX <= g.maxX + 1 ==> g.minX - 1 <= r.oldXVal <= g.maxX + 1
    ensures r != g && g.baseX >= 0 ==> g.minX <= r.oldXVal
  {
    var c := Column(g, val);
    if c == g.oldXVal then g
    else if g.baseX >= 0 then g.(oldVal := val, oldXVal := Max(c, g.minX))
    else if c < g.oldXVal && g.oldXVal < g.minX then g
    else g.(oldVal := val, oldXVal := c)
  }

  // ---------------------------------------------------------------------------
  // Properties of update

  /** A value that projects onto the column last drawn changes nothing. */
  lemma UpdateSameColumn(g: Gauge, val: real)
    requires g.Valid() && Column(g, val) == g.oldXVal
    ensures UpdateCmds(g, val) == [] && UpdateNext(g, val) == g
  {
    assert UpdateBands(g, val) == [];
  }

  /** Band `i` of a run becomes commands `2i` (its colour) and `2i + 1`
      (its fill over the rows of the area). */
  lemma {:induction false} PaintAt(bands: seq<Band>, p: Palette, minY: int, maxY: int)
    ensures forall i | 0 <= i < |bands| ::
      Paint(bands, p, minY, maxY)[2 * i] == SetColor(InkColor(p, bands[i].ink)) &&
      Paint(bands, p, minY, maxY)[2 * i + 1] == Fill(bands[i].x1, minY, bands[i].x2, maxY)
    decreases |bands|
  {
    if bands != [] {
      PaintAt(bands[1..], p, minY, maxY);
      var rest := Paint(bands[1..], p, minY, maxY);
      forall i | 1 <= i < |bands|
        ensures Paint(bands, p, minY, maxY)[2 * i] == SetColor(InkColor(p, bands[i].ink))
        ensures Paint(bands, p, minY, maxY)[2 * i + 1] == Fill(bands[i].x1, minY, bands[i].x2, maxY)
      {
        assert bands[1..][i - 1] == bands[i];
        assert 2 * i == 2 * (i - 1) + 2;
      }
    }
  }

  /** Every command of a painted run sets a colour or fills the full rows
      of the area, and a column is filled exactly when a band covers it. */
  lemma PaintSpans(bands: seq<Band>, p: Palette, minY: int, maxY: int, col: int)
    ensures forall cmd <- Paint(bands, p, minY, maxY) ::
      cmd.SetColor? || (cmd.Fill? && cmd.y1 == minY && cmd.y2 == maxY)
    ensures (exists cmd <- Paint(bands, p, minY, maxY) :: SpansColumn(cmd, col)) <==>
      (exists b <- bands :: Covers(b, col))
  {
    var cmds := Paint(bands, p, minY, maxY);
    PaintAt(bands, p, minY, maxY);
    forall cmd <- cmds
      ensures cmd.SetColor? || (cmd.Fill? && cmd.y1 == minY && cmd.y2 == maxY)
      ensures SpansColumn(cmd, col) ==> exists b <- bands :: Covers(b, col)
    {
      var k :| 0 <= k < |cmds| && cmds[k] == cmd;
      var i := k / 2;
      assert k == 2 * i || k == 2 * i + 1;
      assert bands[i] in bands;
    }
    if b :| b in bands && Covers(b, col) {
      var i :| 0 <= i < |bands| && bands[i] == b;
      assert SpansColumn(cmds[2 * i + 1], col);
    }
  }

  /** Every fill `update` issues spans exactly the rows of the area. */
  lemma UpdateFillsArea(g: Gauge, val: real)
    requires g.Valid()
    ensures forall cmd <- UpdateCmds(g, val) :: cmd.SetColor? || (cmd.Fill? && cmd.y1 == g.minY && cmd.y2 == g.maxY)
  {
    PaintSpans(UpdateBands(g, val), g.palette, g.minY, g.maxY, 0);
  }

  /** In baseline mode `update` never draws over the baseline column. */
  lemma UpdateKeepsBaseline(g: Gauge, val: real)
    requires g.Valid() && g.baseX >= 0
    ensures forall cmd <- UpdateCmds(g, val) :: !SpansColumn(cmd, g.baseX)
  {
    var bands := UpdateBands(g, val);
    PaintSpans(bands, g.palette, g.minY, g.maxY, g.baseX);
    var c := Column(g, val);
    if c != g.oldXVal && !(c < g.minX && g.oldXVal == g.minX) {
      BaselineBandsExact(g, Max(c, g.minX));
    }
    assert !exists b <- bands :: Covers(b, g.baseX);
  }

  /** In baseline mode the bar occupies the columns after the baseline up
      to column `e`, or from `e` up to the one before the baseline. */
  predicate InBar(base: int, e: int, col: int)
  {
    base < col <= e || e <= col < base
  }

  /** In baseline mode an update redraws exactly the columns whose
      membership of the bar changes: the bar colour goes on the columns
      the new bar gains, the background on those it loses, and nothing
      else is touched. */
  lemma BaselineUpdateExact(g: Gauge, val: real)
    requires g.Valid() && g.baseX >= 0
    requires !(Column(g, val) < g.minX && g.oldXVal == g.minX)
    ensures var c := UpdateNext(g, val).oldXVal;
      (forall b <- UpdateBands(g, val), col | Covers(b, col) ::
        if b.ink == Bar then InBar(g.baseX, c, col) && !InBar(g.baseX, g.oldXVal, col)
        else b.ink == Erase && InBar(g.baseX, g.oldXVal, col) && !InBar(g.baseX, c, col)) &&
      (forall col :: InBar(g.baseX, c, col) != InBar(g.baseX, g.oldXVal, col) ==>
        exists b <- UpdateBands(g, val) :: Covers(b, col))
  {
    var c0 := Column(g, val);
    if c0 != g.oldXVal {
      BaselineBandsExact(g, Max(c0, g.minX));
    }
  }

  lemma BaselineBandsExact(g: Gauge, c: int)
    requires c != g.oldXVal
    ensures forall b <- BaselineBands(g, c), col | Covers(b, col) ::
        if b.ink == Bar then InBar(g.baseX, c, col) && !InBar(g.baseX, g.oldXVal, col)
        else b.ink == Erase && InBar(g.baseX, g.oldXVal, col) && !InBar(g.baseX, c, col)
    ensures forall col :: InBar(g.baseX, c, col) != InBar(g.baseX, g.oldXVal, col) ==>
        exists b <- BaselineBands(g, c) :: Covers(b, col)
  {
    var prev, base := g.oldXVal, g.baseX;
    var bands := BaselineBands(g, c);
    forall col | InBar(base, c, col) != InBar(base, prev, col)
      ensures exists b <- bands :: Covers(b, col)
    {
      if (c < prev && c <= base && prev > base && col < base) ||
         (c > prev && c >= base && prev < base && col > base) {
        assert Covers(bands[1], col);
      } else {
        assert Covers(bands[0], col);
      }
    }
  }

  /** The one case `BaselineUpdateExact` leaves out: a bar that already
      ends at `minX`, below the baseline, loses that column when a value
      below the range arrives. The column is raised back to `minX` only
      after the unchanged-column test, and the fill for a bar moving toward
      the baseline then erases `minX - 1` to `minX`, although the bar still
      ends at `minX`. */
  lemma BaselineFloorErasesBar(g: Gauge, val: real)
    requires g.Valid() && 0 <= g.minX < g.baseX && g.minX <= g.maxX && g.oldXVal == g.minX
    requires Interpolate(g, val) < g.minX
    ensures UpdateBands(g, val) == [Band(Erase, g.minX - 1, g.minX)]
    ensures UpdateNext(g, val).oldXVal == g.minX && InBar(g.baseX, g.minX, g.minX)
  {
  }

  /** `lo < col <= hi`: the columns an update from `lo` to `hi` adds. */
  predicate Between(lo: int, col: int, hi: int)
  {
    lo < col <= hi
  }

  /** Without a baseline, growing draws the bar colour only before
      `maxAlertX` and the alert colour only from it on, and together they
      cover exactly the columns after the old one up to the new one. */
  lemma GrowWithoutBaseline(g: Gauge, val: real)
    requires g.Valid() && g.baseX < 0 && Column(g, val) > g.oldXVal
    ensures var c := Column(g, val);
      (forall b <- UpdateBands(g, val), col | Covers(b, col) ::
        g.oldXVal < col <= c && b.ink != Erase &&
        (b.ink == Bar ==> col <= g.maxAlertX - 1) && (b.ink == Alert ==> g.maxAlertX <= col)) &&
      (forall col | Between(g.oldXVal, col, c) :: exists b <- UpdateBands(g, val) :: Covers(b, col))
  {
    var c := Column(g, val);
    var bands := GrowBands(g, c);
    assert UpdateBands(g, val) == bands;
    forall col | Between(g.oldXVal, col, c)
      ensures exists b <- bands :: Covers(b, col)
    {
      if col < g.maxAlertX {
        assert Covers(bands[0], col);
      } else {
        assert Covers(bands[|bands| - 1], col);
      }
    }
  }

  /** Without a baseline, shrinking erases exactly the columns after the
      new one up to the old one, or nothing when the bar is empty. */
  lemma ShrinkWithoutBaseline(g: Gauge, val: real)
    requires g.Valid() && g.baseX < 0 && Column(g, val) < g.oldXVal
    ensures g.oldXVal < g.minX ==> UpdateBands(g, val) == [] && UpdateNext(g, val) == g
    ensures forall b <- UpdateBands(g, val) :: b.ink == Erase
    ensures g.minX <= g.oldXVal ==>
      (forall b <- UpdateBands(g, val), col | Covers(b, col) :: Between(Column(g, val), col, g.oldXVal)) &&
      (forall col | Between(Column(g, val), col, g.oldXVal) :: exists b <- UpdateBands(g, val) :: Covers(b, col))
  {
    if g.minX <= g.oldXVal {
      assert UpdateBands(g, val) == [Band(Erase, Column(g, val) + 1, g.oldXVal)];
    }
  }

  // ---------------------------------------------------------------------------
  // redraw

  /** `redraw`: the frame outlined, the area cleared, and the baseline
      drawn in the frame colour under the test `baseX >= -1`. */
  function RedrawCmds(g: Gauge): seq<Cmd>
  {
    [SetColor(g.palette.frame), Rect(g.x, g.y, g.x + g.w - 1, g.y + g.h - 1),
     SetColor(g.palette.background), Fill(g.minX, g.minY, g.maxX, g.maxY)] +
    (if g.baseX >= -1 then [SetColor(g.palette.frame), Line(g.baseX, g.minY, g.baseX, g.maxY)] else [])
  }

  /** `redraw` clears exactly the area in the background colour, outlines
      the whole rectangle, and draws its one line at the baseline column
      across the rows of the area. A gauge without a baseline (`baseX` is
      -1) passes the test too and gets that line at column -1. */
  lemma RedrawShape(g: Gauge)
    requires g.baseX == -1 || g.baseX >= 0
    ensures var cmds := RedrawCmds(g);
      cmds[2..4] == [SetColor(g.palette.background), Fill(g.minX, g.minY, g.maxX, g.maxY)] &&
      Rect(g.x, g.y, g.x + g.w - 1, g.y + g.h - 1) in cmds &&
      Line(g.baseX, g.minY, g.baseX, g.maxY) in cmds &&
      (forall cmd <- cmds :: cmd.Line? ==> cmd == Line(g.baseX, g.minY, g.baseX, g.maxY))
  {
    var cmds := RedrawCmds(g);
    assert cmds[1] == Rect(g.x, g.y, g.x + g.w - 1, g.y + g.h - 1);
    assert cmds[5] == Line(g.baseX, g.minY, g.baseX, g.maxY);
  }

  /** After `setBaseValue` with a baseline inside the area, a redraw marks
      the baseline, and every later update leaves that column alone. */
  lemma BaselineStaysMarked(g: Gauge, xZ: real, val: real)
    requires g.Valid() && 0 <= g.minX <= Interpolate(g, xZ) <= g.maxX
    ensures var r := WithBase(g, xZ);
      Line(r.baseX, r.minY, r.baseX, r.maxY) in RedrawCmds(r) &&
      forall cmd <- UpdateCmds(r, val) :: !SpansColumn(cmd, r.baseX)
  {
    var r := WithBase(g, xZ);
    assert RedrawCmds(r)[5] == Line(r.baseX, r.minY, r.baseX, r.maxY);
    UpdateKeepsBaseline(r, val);
  }
}
