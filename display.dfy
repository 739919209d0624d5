/** The display surface the renderers draw on (the UTFT driver), reduced to
    what the renderers can observe of it: an append-only log of the primitive
    calls they make. The driver's rasterisation is not part of this model. */
module Display {

  type Byte = x: int | 0 <= x < 256

  datatype Rgb = Rgb(r: Byte, g: Byte, b: Byte)

  /** One call on the driver. Rectangles and lines are given by two corners,
      both inclusive; `fillRect` and `drawRect` accept the corners in either
      order. */
  datatype Cmd =
    | SetColor(color: Rgb)
    | Pixel(x: int, y: int)
    | Line(x1: int, y1: int, x2: int, y2: int)
    | Rect(x1: int, y1: int, x2: int, y2: int)
    | Fill(x1: int, y1: int, x2: int, y2: int)

  /** Does a line, rectangle or fill reach pixel column `col`? */
  predicate SpansColumn(c: Cmd, col: int)
  {
    match c
    case SetColor(_) => false
    case Pixel(x, _) => x == col
    case Line(x1, _, x2, _) => (x1 <= col <= x2) || (x2 <= col <= x1)
    case Rect(x1, _, x2, _) => (x1 <= col <= x2) || (x2 <= col <= x1)
    case Fill(x1, _, x2, _) => (x1 <= col <= x2) || (x2 <= col <= x1)
  }

  /** Appending two pieces to a log one after the other appends their
      concatenation. */
  lemma Reassoc(log: seq<Cmd>, a: seq<Cmd>, b: seq<Cmd>)
    ensures log + a + b == log + (a + b)
  {
  }

  /** Regrouping a log made of pieces: what a loop has drawn so far
      followed by what it still has to draw. */
  lemma Regroup(log: seq<Cmd>, a: seq<Cmd>, b: seq<Cmd>, rest: seq<Cmd>)
    ensures log + a + b + rest == log + (a + b + rest)
  {
  }

  /** The display: a shared device whose colour register is set before each
      primitive. */
  class Surface {
    var log: seq<Cmd>

    constructor ()
      ensures log == []
    {
      log := [];
    }

    method SetColor(c: Rgb)
      modifies this
      ensures log == old(log) + [Cmd.SetColor(c)]
    {
      log := log + [Cmd.SetColor(c)];
    }

    method DrawPixel(x: int, y: int)
      modifies this
      ensures log == old(log) + [Pixel(x, y)]
    {
      log := log + [Pixel(x, y)];
    }

    method DrawLine(x1: int, y1: int, x2: int, y2: int)
      modifies this
      ensures log == old(log) + [Line(x1, y1, x2, y2)]
    {
      log := log + [Line(x1, y1, x2, y2)];
    }

    method DrawRect(x1: int, y1: int, x2: int, y2: int)
      modifies this
      ensures log == old(log) + [Rect(x1, y1, x2, y2)]
    {
      log := log + [Rect(x1, y1, x2, y2)];
    }

    method FillRect(x1: int, y1: int, x2: int, y2: int)
      modifies this
      ensures log == old(log) + [Fill(x1, y1, x2, y2)]
    {
      log := log + [Fill(x1, y1, x2, y2)];
    }
  }
}
