/** The HTML canvas 2D context as the rendering code drives it.  Nothing is
    rasterised: a context records, in order, every state change and drawing
    call made on it, and a canvas used as an image source is its recorded log. */
module Canvas2D {
  import opened Js

  /** A colour as handed to the context: CSS text taken as it is, or the text
      `rgba(r, g, b, alpha)` built from four numbers. */
  datatype ColorText = CssText(text: string) | RgbaText(r: Num, g: Num, b: Num, alpha: Num)

  datatype ColorStop = ColorStop(offset: Num, color: ColorText)

  /** A fill or stroke style. */
  datatype Paint =
    | Solid(color: ColorText)
    | LinearGradient(x0: Num, y0: Num, x1: Num, y1: Num, stops: seq<ColorStop>)
    | RadialGradient(cx: Num, cy: Num, radius: Num, stops: seq<ColorStop>)
    | Pattern(image: ImageSource, repetition: string)

  /** An image handed to drawImage or createPattern: another canvas, or a loaded picture. */
  datatype ImageSource =
    | CanvasImage(width: nat, height: nat, log: seq<DrawCmd>)
    | Bitmap(src: string, naturalWidth: nat, naturalHeight: nat)

  datatype DrawCmd =
    | Save
    | Restore
    | BeginPath
    | ClosePath
    | MoveTo(x: Num, y: Num)
    | LineTo(x: Num, y: Num)
    | QuadTo(cpx: Num, cpy: Num, x: Num, y: Num)
    | ArcTo(x1: Num, y1: Num, x2: Num, y2: Num, radius: Num)
    | Rect(x: Num, y: Num, w: Num, h: Num)
    | Clip
    | Stroke
    | FillRect(x: Num, y: Num, w: Num, h: Num)
    | StrokeRect(x: Num, y: Num, w: Num, h: Num)
    | ClearRect(x: Num, y: Num, w: Num, h: Num)
    | Translate(x: Num, y: Num)
    | SetFillStyle(paint: Paint)
    | SetStrokeStyle(paint: Paint)
    | SetLineWidth(width: Num)
    | SetLineDash(segments: seq<Num>)
    | SetComposite(operation: string)
    | SetSmoothing(enabled: bool)
    | SetSmoothingQuality(quality: string)
    | DrawImage(image: ImageSource, dx: Num, dy: Num, dw: Num, dh: Num)
    | DrawImageRegion(image: ImageSource, sx: Num, sy: Num, sw: Num, sh: Num,
                      dx: Num, dy: Num, dw: Num, dh: Num)

  /** The largest value the `width` and `height` attributes of a canvas keep. */
  const MaxDimension: int := 0x7FFF_FFFF

  /** Assigning a number to `canvas.width` or `canvas.height`: the number is
      converted to an unsigned 32-bit integer (truncated, wrapped, NaN and the
      infinities giving 0), and a result above 2^31 - 1 gives the default 300. */
  function CanvasDim(n: Num): (d: nat)
    ensures n.Fin? && 0.0 <= n.v && n.v < MaxDimension as real + 1.0 ==> d == Floor(n.v)
  {
    match n
    case Fin(x) =>
      var t := (if x >= 0.0 then Floor(x) else -Floor(-x)) % 0x1_0000_0000;
      if t <= MaxDimension then t else 300
    case _ => 0
  }

  /** Whether `drawImage` and `createPattern` accept the image: a canvas with
      a zero side makes them throw an `InvalidStateError`. */
  predicate Usable(im: ImageSource) {
    im.CanvasImage? ==> im.width > 0 && im.height > 0
  }

  /** A canvas element together with its 2D context. */
  class Context {
    var width: nat
    var height: nat
    var log: seq<DrawCmd>

    constructor (w: nat, h: nat)
      ensures width == w && height == h && log == []
    {
      width, height, log := w, h, [];
    }

    /** The canvas as an image source for drawImage or createPattern. */
    function Image(): (im: ImageSource)
      reads this
    {
      CanvasImage(width, height, log)
    }

    /** Issues one call on the context. */
    method Do(c: DrawCmd)
      modifies this
      ensures log == old(log) + [c]
      ensures width == old(width) && height == old(height)
    {
      log := log + [c];
    }

    /** Issues a sequence of calls on the context, in order. */
    method DoAll(cs: seq<DrawCmd>)
      modifies this
      ensures log == old(log) + cs
      ensures width == old(width) && height == old(height)
    {
      log := log + cs;
    }

    /** Assigning `canvas.width` and `canvas.height`, which also clears the canvas. */
    method Resize(w: nat, h: nat)
      modifies this
      ensures width == w && height == h && log == []
    {
      width, height, log := w, h, [];
    }
  }

  /** Appending to a log in two steps or in one gives the same log. */
  lemma AppendAssociative(a: seq<DrawCmd>, b: seq<DrawCmd>, c: seq<DrawCmd>)
    ensures (a + b) + c == a + (b + c)
  {
  }
}
