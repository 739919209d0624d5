/** The anti-aliased line of the strip chart: Xiaolin Wu's algorithm in the
    16-bit fixed-point form, with an 8-bit intensity taken from the top of a
    wrapping 16-bit error accumulator. This module states, as values, which
    pixels the line shades and with which weight; the loop that produces them
    is `StripChart.Graph.DrawAALine`. */
module AntiAlias {
  import opened CArith
  import opened Display

  /** The accumulator is a `uint16_t`: it wraps at 2^16. */
  const One := 0x1_0000

  /** The complementary weight, `255 - w`. */
  function Complement(w: Byte): (c: Byte)
    ensures c + w == 255
  {
    255 - w
  }

  /** The loop forms the complement as `Weighting ^ 255` on a 16-bit
      weight below 256: the same value. */
  lemma ComplementIsXor(w: bv16)
    requires w < 0x100
    ensures Complement(w as int) == (w ^ 0xFF) as int
  {
    assert w ^ 0xFF == 0xFF - w;
  }

  /** One colour channel of `drawAAPixel`: `map(grad, 0, 255, line, bg)`,
      stored into a `byte` (the value is taken modulo 256). */
  function Mix(grad: int, line: Byte, bg: Byte): (c: Byte)
    ensures grad == 0 ==> c == line
    ensures grad == 255 ==> c == bg
  {
    MapEndpoints(grad, 0, 255, line, bg);
    ArduinoMap(grad, 0, 255, line, bg) % 256
  }

  /** Every intermediate gradient gives a channel value between the line's
      and the background's. */
  lemma MixBetween(grad: int, line: Byte, bg: Byte)
    requires 0 <= grad <= 255
    ensures Min(line, bg) <= Mix(grad, line, bg) <= Max(line, bg)
  {
    MapEndpoints(grad, 0, 255, line, bg);
  }

  /** The colour `drawAAPixel` sets for gradient `grad`: weight 0 is the line
      colour and weight 255 the background. */
  function Blend(grad: int, line: Rgb, bg: Rgb): (c: Rgb)
    ensures grad == 0 ==> c == line
    ensures grad == 255 ==> c == bg
  {
    Rgb(Mix(grad, line.r, bg.r), Mix(grad, line.g, bg.g), Mix(grad, line.b, bg.b))
  }

  /** A pixel drawn through `drawAAPixel`, with its gradient. */
  datatype Shade = Shade(x: int, y: int, grad: Byte)

  /** One pass of the inner loop: the pixel next to the ideal line and its
      partner one step further along the minor axis. */
  datatype Step = Step(near: Shade, far: Shade)

  /** What `drawAALine` does once its endpoints are ordered top to bottom:
      one driver line, or a run of shaded steps between the two endpoints. */
  datatype Plan =
    | Straight(x1: int, y1: int, x2: int, y2: int)
    | Shaded(x1: int, y1: int, steps: seq<Step>, x2: int, y2: int)

  function Abs(n: int): (a: nat)
    ensures a == n || a == -n
  {
    if n < 0 then -n else n
  }

  /** `ErrorAdj`: the minor-axis advance per major-axis step as a 16-bit
      fraction, truncated. */
  function ErrorAdj(minor: int, major: int): (adj: int)
    requires 0 < minor < major <= 0x7FFF
    ensures 0 < adj < One
    ensures adj * major <= minor * One
  {
    AdjBounds(minor, major);
    minor * One / major
  }

  lemma AdjBounds(minor: int, major: int)
    requires 0 < minor < major <= 0x7FFF
    ensures 0 < minor * One / major < One
    ensures (minor * One / major) * major <= minor * One
  {
    var adj := minor * One / major;
    DivBounds(minor * One, major);
    MulLe(1, minor, One);
    if adj >= One {
      MulLe(One, adj, major);
    }
  }

  /** The accumulator after `k` steps, as the loop keeps it: `ErrorAdj` is
      added once per step and the sum wraps at 2^16. */
  function Acc(k: nat, adj: int): (a: int)
    ensures 0 <= a < One
  {
    if k == 0 then 0 else (Acc(k - 1, adj) + adj) % One
  }

  /** The minor-axis offset after `k` steps: one pixel each time the
      accumulator turns over, that is, its new value is not above the old. */
  function Carry(k: nat, adj: int): (c: nat)
  {
    if k == 0 then 0
    else Carry(k - 1, adj) + (if Acc(k, adj) <= Acc(k - 1, adj) then 1 else 0)
  }

  /** The weight read from the top 8 bits of the accumulator. */
  function Weight(k: nat, adj: int): (w: Byte)
  {
    Acc(k, adj) / 256
  }

  /** `n` pixels from `a` in direction `dir` (`-1` or `+1`). */
  function Toward(a: int, dir: int, n: int): (b: int)
    ensures b == a + n || b == a - n
  {
    if dir < 0 then a - n else a + n
  }

  /** Step `k` (counted from 1) of a line from `(sx, sy)` heading `xdir`
      horizontally and downwards. */
  function StepAt(sx: int, sy: int, xdir: int, yMajor: bool, adj: int, k: nat): (st: Step)
    ensures st.near.grad + st.far.grad == 255
    ensures yMajor ==> st.near.y == st.far.y && st.far.x == Toward(st.near.x, xdir, 1)
    ensures !yMajor ==> st.near.x == st.far.x && st.far.y == st.near.y + 1
  {
    var w := Weight(k, adj);
    if yMajor then
      var x := Toward(sx, xdir, Carry(k, adj));
      Step(Shade(x, sy + k, w), Shade(Toward(x, xdir, 1), sy + k, Complement(w)))
    else
      var y := sy + Carry(k, adj);
      Step(Shade(Toward(sx, xdir, k), y, w), Shade(Toward(sx, xdir, k), y + 1, Complement(w)))
  }

  /** Steps `k + 1` to `n` of the line, in drawing order. */
  function StepsFrom(sx: int, sy: int, xdir: int, yMajor: bool, adj: int, k: nat, n: nat): (s: seq<Step>)
    requires k <= n
    ensures |s| == n - k
    decreases n - k
  {
    if k == n then [] else [StepAt(sx, sy, xdir, yMajor, adj, k + 1)] + StepsFrom(sx, sy, xdir, yMajor, adj, k + 1, n)
  }

  /** The `i`-th of the steps after `k` is step `k + i + 1`. */
  lemma {:induction false} StepsFromAt(sx: int, sy: int, xdir: int, yMajor: bool, adj: int, k: nat, n: nat, i: nat)
    requires k <= n && i < n - k
    ensures StepsFrom(sx, sy, xdir, yMajor, adj, k, n)[i] == StepAt(sx, sy, xdir, yMajor, adj, k + i + 1)
    decreases n - k
  {
    if i > 0 {
      StepsFromAt(sx, sy, xdir, yMajor, adj, k + 1, n, i - 1);
    }
  }

  /** The plan for a line whose endpoints are already ordered, `sy <= ey`. */
  function PlanFrom(sx: int, sy: int, ex: int, ey: int): Plan
    requires sy <= ey && Abs(ex - sx) <= 0x7FFF && ey - sy <= 0x7FFF
  {
    var dx := Abs(ex - sx);
    var dy := ey - sy;
    if dy == 0 || dx == 0 || dx == dy then
      Straight(sx, sy, ex, ey)
    else
      Shaded(sx, sy, LineSteps(sx, sy, ex, ey), ex, ey)
  }

  /** The steps of a line that is neither horizontal, vertical nor
      diagonal: along y when it is steeper than 45 degrees, else along x. */
  function LineSteps(sx: int, sy: int, ex: int, ey: int): seq<Step>
    requires sy < ey && 0 < Abs(ex - sx) <= 0x7FFF && ey - sy <= 0x7FFF && Abs(ex - sx) != ey - sy
  {
    var dx := Abs(ex - sx);
    var dy := ey - sy;
    var xdir := if ex - sx >= 0 then 1 else -1;
    if dy > dx then StepsFrom(sx, sy, xdir, true, ErrorAdj(dx, dy), 0, dy - 1)
    else StepsFrom(sx, sy, xdir, false, ErrorAdj(dy, dx), 0, dx - 1)
  }

  /** The plan for `drawAALine(x1, y1, x2, y2)`: the endpoints are swapped
      so that the line runs top to bottom; horizontal, vertical and diagonal
      lines need no shading; every other line has one step per major-axis
      pixel strictly between its endpoints. */
  function PlanOf(x1: int, y1: int, x2: int, y2: int): (p: Plan)
    requires Abs(x2 - x1) <= 0x7FFF && Abs(y2 - y1) <= 0x7FFF
    ensures p.y1 <= p.y2
    ensures (p.x1, p.y1, p.x2, p.y2) == (x1, y1, x2, y2) || (p.x1, p.y1, p.x2, p.y2) == (x2, y2, x1, y1)
    ensures p.Straight? <==> (y1 == y2 || x1 == x2 || Abs(x2 - x1) == Abs(y2 - y1))
    ensures p.Shaded? ==> |p.steps| == Max(Abs(x2 - x1), Abs(y2 - y1)) - 1
  {
    if y1 > y2 then PlanFrom(x2, y2, x1, y1) else PlanFrom(x1, y1, x2, y2)
  }

  /** One pass of the Y-major loop, as the loop computes it from the
      previous accumulator and column: the next step of the line. */
  lemma YMajorNext(sx: int, sy: int, xdir: int, adj: int, k: nat)
    requires 0 < adj < One && (xdir == 1 || xdir == -1)
    ensures var acc := (Acc(k, adj) + adj) % 0x1_0000;
      var x := Toward(sx, xdir, Carry(k, adj)) + (if acc <= Acc(k, adj) then xdir else 0);
      Acc(k + 1, adj) == acc && Toward(sx, xdir, Carry(k + 1, adj)) == x &&
      StepAt(sx, sy, xdir, true, adj, k + 1)
        == Step(Shade(x, sy + k + 1, acc / 256), Shade(x + xdir, sy + k + 1, Complement(acc / 256)))
  {
  }

  /** One pass of the X-major loop: the next step of the line. */
  lemma XMajorNext(sx: int, sy: int, xdir: int, adj: int, k: nat)
    requires 0 < adj < One && (xdir == 1 || xdir == -1)
    ensures var acc := (Acc(k, adj) + adj) % 0x1_0000;
      var y := sy + Carry(k, adj) + (if acc <= Acc(k, adj) then 1 else 0);
      var x := Toward(sx, xdir, k) + xdir;
      Acc(k + 1, adj) == acc && sy + Carry(k + 1, adj) == y && Toward(sx, xdir, k + 1) == x &&
      StepAt(sx, sy, xdir, false, adj, k + 1)
        == Step(Shade(x, y, acc / 256), Shade(x, y + 1, Complement(acc / 256)))
  {
  }

  /** The driver calls of one `drawAAPixel`. */
  function ShadeCmds(s: Shade, line: Rgb, bg: Rgb): seq<Cmd>
  {
    [SetColor(Blend(s.grad, line, bg)), Pixel(s.x, s.y)]
  }

  function StepsCmds(steps: seq<Step>, line: Rgb, bg: Rgb): (cmds: seq<Cmd>)
    ensures |cmds| == 4 * |steps|
  {
    if steps == [] then []
    else ShadeCmds(steps[0].near, line, bg) + ShadeCmds(steps[0].far, line, bg) + StepsCmds(steps[1..], line, bg)
  }

  /** The driver calls of the steps after `k`: those of step `k + 1`, then
      the rest. */
  lemma StepsCmdsNext(sx: int, sy: int, xdir: int, yMajor: bool, adj: int, k: nat, n: nat, line: Rgb, bg: Rgb)
    requires k < n
    ensures var st := StepAt(sx, sy, xdir, yMajor, adj, k + 1);
      StepsCmds(StepsFrom(sx, sy, xdir, yMajor, adj, k, n), line, bg)
        == ShadeCmds(st.near, line, bg) + ShadeCmds(st.far, line, bg) + StepsCmds(StepsFrom(sx, sy, xdir, yMajor, adj, k + 1, n), line, bg)
  {
    var st := StepAt(sx, sy, xdir, yMajor, adj, k + 1);
    var rest := StepsFrom(sx, sy, xdir, yMajor, adj, k + 1, n);
    assert ([st] + rest)[1..] == rest;
  }

  /** The driver calls `drawAALine` makes for a plan: the first pixel in the
      line colour, then the line or the shaded steps and the last pixel. */
  function Render(p: Plan, line: Rgb, bg: Rgb): seq<Cmd>
  {
    match p
    case Straight(x1, y1, x2, y2) =>
      [SetColor(line), Pixel(x1, y1), Line(x1, y1, x2, y2)]
    case Shaded(x1, y1, steps, x2, y2) =>
      [SetColor(line), Pixel(x1, y1)] + StepsCmds(steps, line, bg) + ShadeCmds(Shade(x2, y2, 0), line, bg)
  }

  // ---------------------------------------------------------------------------
  // The accumulator

  /** The closed form of the accumulator: after `k` steps it holds
      `k * ErrorAdj` modulo 2^16, and it has turned over `k * ErrorAdj`
      div 2^16 times. */
  lemma {:induction false} ClosedForm(k: nat, adj: int)
    requires 0 < adj < One
    ensures Acc(k, adj) == (k * adj) % One
    ensures Carry(k, adj) == (k * adj) / One
  {
    if k > 0 {
      ClosedForm(k - 1, adj);
      var m := (k - 1) * adj;
      assert k * adj == m + adj;
      WrapStep(m, adj);
    }
  }

  /** Adding `adj` to a wrapped sum: the low part wraps exactly when the
      high part goes up, by one. */
  lemma WrapStep(m: int, adj: int)
    requires 0 < adj < One
    ensures (m + adj) % One == (m % One + adj) % One
    ensures (m + adj) % One <= m % One ==> (m + adj) / One == m / One + 1
    ensures (m + adj) % One > m % One ==> (m + adj) / One == m / One
  {
    var c, a := m / One, m % One;
    assert m == c * One + a;
    if a + adj < One {
      DivModUnique(m + adj, c, a + adj);
      DivModUnique(a + adj, 0, a + adj);
    } else {
      DivModUnique(m + adj, c + 1, a + adj - One);
      DivModUnique(a + adj, 1, a + adj - One);
    }
  }

  lemma DivModUnique(n: int, q: int, r: int)
    requires 0 <= r < One && n == q * One + r
    ensures n / One == q && n % One == r
  {
  }

  /** The truncated `ErrorAdj` keeps the minor coordinate on or behind the
      ideal line: after `k` steps it has advanced `Carry` pixels where the
      exact line has advanced `k * minor / major`. */
  lemma BehindIdeal(k: nat, minor: int, major: int)
    requires 0 < minor < major <= 0x7FFF
    ensures Carry(k, ErrorAdj(minor, major)) * major <= k * minor
  {
    var adj := ErrorAdj(minor, major);
    ClosedForm(k, adj);
    TruncatedBehind(k, minor, major, adj, (k * adj) / One);
  }

  lemma TruncatedBehind(k: nat, minor: int, major: int, adj: int, c: int)
    requires 0 < minor < major && 0 < adj && adj * major <= minor * One
    requires c == (k * adj) / One
    ensures c * major <= k * minor
  {
    assert c * One <= k * adj;
    MulLe(c * One, k * adj, major);
    assert k * adj * major == k * (adj * major);
    MulLe(adj * major, minor * One, k);
    assert c * One * major == (c * major) * One;
    assert k * (minor * One) == (k * minor) * One;
    if c * major > k * minor {
      MulLe(k * minor + 1, c * major, One);
    }
  }

  /** ... and therefore never reaches the far endpoint before the last
      step: the shaded partner pixel is at most the endpoint. */
  lemma CarryBelowMinor(k: nat, minor: int, major: int)
    requires 0 < minor < major <= 0x7FFF && k < major
    ensures 0 <= Carry(k, ErrorAdj(minor, major)) < minor
  {
    var c := Carry(k, ErrorAdj(minor, major));
    BehindIdeal(k, minor, major);
    MulLe(k + 1, major, minor);
    assert (k + 1) * minor == k * minor + minor;
    assert major * minor == minor * major;
    if c >= minor {
      MulLe(minor, c, major);
    }
  }

  // ---------------------------------------------------------------------------
  // Properties of the plan

  /** A pixel inside the bounding box of the two endpoints. */
  predicate InBox(s: Shade, x1: int, y1: int, x2: int, y2: int)
  {
    Min(x1, x2) <= s.x <= Max(x1, x2) && Min(y1, y2) <= s.y <= Max(y1, y2)
  }

  /** Every shaded pixel lies inside the bounding box of the two
      endpoints. */
  lemma StepsInBox(x1: int, y1: int, x2: int, y2: int)
    requires Abs(x2 - x1) <= 0x7FFF && Abs(y2 - y1) <= 0x7FFF
    ensures var p := PlanOf(x1, y1, x2, y2);
      p.Shaded? ==> forall st <- p.steps :: InBox(st.near, x1, y1, x2, y2) && InBox(st.far, x1, y1, x2, y2)
  {
    var p := PlanOf(x1, y1, x2, y2);
    if p.Shaded? {
      forall st <- p.steps
        ensures InBox(st.near, x1, y1, x2, y2) && InBox(st.far, x1, y1, x2, y2)
      {
        var i :| 0 <= i < |p.steps| && p.steps[i] == st;
        if y1 > y2 {
          StepInBox(x2, y2, x1, y1, i);
        } else {
          StepInBox(x1, y1, x2, y2, i);
        }
      }
    }
  }

  /** Step `i` of a shaded line from the upper endpoint: both its pixels
      lie between the endpoints on each axis. */
  lemma StepInBox(sx: int, sy: int, ex: int, ey: int, i: nat)
    requires sy < ey && 0 < Abs(ex - sx) <= 0x7FFF && ey - sy <= 0x7FFF && Abs(ex - sx) != ey - sy
    requires i < |LineSteps(sx, sy, ex, ey)|
    ensures var st := LineSteps(sx, sy, ex, ey)[i];
      InBox(st.near, sx, sy, ex, ey) && InBox(st.far, sx, sy, ex, ey)
  {
    var dx, dy := Abs(ex - sx), ey - sy;
    var xdir := if ex - sx >= 0 then 1 else -1;
    if dy > dx {
      StepsFromAt(sx, sy, xdir, true, ErrorAdj(dx, dy), 0, dy - 1, i);
      CarryBelowMinor(i + 1, dx, dy);
    } else {
      StepsFromAt(sx, sy, xdir, false, ErrorAdj(dy, dx), 0, dx - 1, i);
      CarryBelowMinor(i + 1, dy, dx);
    }
  }

  /** The first pixel and, for a shaded line, the last pixel carry the full
      line colour; a single driver line is drawn exactly for horizontal,
      vertical and diagonal lines. */
  lemma EndpointsInLineColour(x1: int, y1: int, x2: int, y2: int, line: Rgb, bg: Rgb)
    requires Abs(x2 - x1) <= 0x7FFF && Abs(y2 - y1) <= 0x7FFF
    ensures var p := PlanOf(x1, y1, x2, y2);
      var cmds := Render(p, line, bg);
      cmds[..2] == [SetColor(line), Pixel(p.x1, p.y1)] &&
      (p.Shaded? ==> cmds[|cmds| - 2..] == [SetColor(line), Pixel(p.x2, p.y2)])
  {
  }

  lemma {:induction false} StepsDrawPixelsOnly(steps: seq<Step>, line: Rgb, bg: Rgb)
    ensures forall c <- StepsCmds(steps, line, bg) :: c.SetColor? || c.Pixel?
  {
    if steps != [] {
      StepsDrawPixelsOnly(steps[1..], line, bg);
    }
  }

  lemma OneLineIffStraight(x1: int, y1: int, x2: int, y2: int, line: Rgb, bg: Rgb)
    requires Abs(x2 - x1) <= 0x7FFF && Abs(y2 - y1) <= 0x7FFF
    ensures (exists c <- Render(PlanOf(x1, y1, x2, y2), line, bg) :: c.Line?)
        <==> (y1 == y2 || x1 == x2 || Abs(x2 - x1) == Abs(y2 - y1))
  {
    var p := PlanOf(x1, y1, x2, y2);
    if p.Shaded? {
      StepsDrawPixelsOnly(p.steps, line, bg);
      var cmds := Render(p, line, bg);
      forall c <- cmds ensures !c.Line? {
        assert c in [SetColor(line), Pixel(p.x1, p.y1)] || c in StepsCmds(p.steps, line, bg)
          || c in ShadeCmds(Shade(p.x2, p.y2, 0), line, bg);
      }
    } else {
      assert Render(p, line, bg)[2].Line?;
    }
  }

  /** Consecutive near pixels are 8-connected: each step moves one pixel
      along the major axis and at most one along the minor axis. */
  lemma NearPixelsConnected(x1: int, y1: int, x2: int, y2: int, i: nat)
    requires Abs(x2 - x1) <= 0x7FFF && Abs(y2 - y1) <= 0x7FFF
    requires PlanOf(x1, y1, x2, y2).Shaded? && i + 1 < |PlanOf(x1, y1, x2, y2).steps|
    ensures var s := PlanOf(x1, y1, x2, y2).steps;
      Abs(s[i + 1].near.x - s[i].near.x) <= 1 && s[i + 1].near.y - s[i].near.y in {0, 1}
      && Abs(s[i + 1].near.x - s[i].near.x) + (s[i + 1].near.y - s[i].near.y) >= 1
  {
    if y1 > y2 {
      NearPixelsConnectedFrom(x2, y2, x1, y1, i);
    } else {
      NearPixelsConnectedFrom(x1, y1, x2, y2, i);
    }
  }

  lemma NearPixelsConnectedFrom(sx: int, sy: int, ex: int, ey: int, i: nat)
    requires sy <= ey && Abs(ex - sx) <= 0x7FFF && ey - sy <= 0x7FFF
    requires PlanFrom(sx, sy, ex, ey).Shaded? && i + 1 < |PlanFrom(sx, sy, ex, ey).steps|
    ensures var s := PlanFrom(sx, sy, ex, ey).steps;
      Abs(s[i + 1].near.x - s[i].near.x) <= 1 && s[i + 1].near.y - s[i].near.y in {0, 1}
      && Abs(s[i + 1].near.x - s[i].near.x) + (s[i + 1].near.y - s[i].near.y) >= 1
  {
    var dx, dy := Abs(ex - sx), ey - sy;
    var xdir := if ex - sx >= 0 then 1 else -1;
    var yMajor := dy > dx;
    var adj := if yMajor then ErrorAdj(dx, dy) else ErrorAdj(dy, dx);
    var n := if yMajor then dy - 1 else dx - 1;
    var s := StepsFrom(sx, sy, xdir, yMajor, adj, 0, n);
    assert PlanFrom(sx, sy, ex, ey).steps == s;
    StepsFromAt(sx, sy, xdir, yMajor, adj, 0, n, i);
    StepsFromAt(sx, sy, xdir, yMajor, adj, 0, n, i + 1);
    NearStep(s[i].near, s[i + 1].near, sx, sy, xdir, yMajor, adj, i + 1);
  }

  lemma NearStep(a: Shade, b: Shade, sx: int, sy: int, xdir: int, yMajor: bool, adj: int, k: nat)
    requires xdir == 1 || xdir == -1
    requires a == StepAt(sx, sy, xdir, yMajor, adj, k).near && b == StepAt(sx, sy, xdir, yMajor, adj, k + 1).near
    ensures Abs(b.x - a.x) <= 1 && b.y - a.y in {0, 1} && Abs(b.x - a.x) + (b.y - a.y) >= 1
  {
    assert Carry(k + 1, adj) - Carry(k, adj) in {0, 1};
  }
}
