/** The canvas helpers of `utils.ts`: pixelating what a canvas already holds,
    in place, by drawing it down onto a small canvas and back up with
    smoothing off; and the inline style that imitates pixelation with CSS
    transforms and filters instead. */
module CanvasUtils {
  import opened Js
  import opened Wrappers
  import opened NumText
  import opened Canvas2D
  import opened BackgroundRenderer

  /** The pixel size used when the caller passes none. */
  const DefaultUnitPixel: Num := Int(4)

  function UnitPixelOrDefault(unitPixel: Option<Num>): Num {
    if unitPixel.Some? then unitPixel.value else DefaultUnitPixel
  }

  /** The temporary canvas of `pixelateCanvasData` once the original has been
      drawn onto it: `ceil(side / unitPixel)` on each side, smoothing off. */
  function Downsampled(original: ImageSource, unitPixel: Num): ImageSource
    requires original.CanvasImage?
  {
    var smallWidth := LowResSize(Int(original.width), unitPixel);
    var smallHeight := LowResSize(Int(original.height), unitPixel);
    CanvasImage(CanvasDim(smallWidth), CanvasDim(smallHeight),
                [SetSmoothing(false), DrawImage(original, Int(0), Int(0), smallWidth, smallHeight)])
  }

  /** The calls `pixelateCanvasData` makes on the original canvas: smoothing
      off, clear, and the small canvas stretched back over the whole canvas. */
  function PixelatedCommands(original: ImageSource, unitPixel: Num): seq<DrawCmd>
    requires original.CanvasImage?
  {
    var w, h := Int(original.width), Int(original.height);
    [SetSmoothing(false), ClearRect(Int(0), Int(0), w, h),
     DrawImage(Downsampled(original, unitPixel), Int(0), Int(0), w, h)]
  }

  /** `pixelateCanvasData(canvas, unitPixel)`. Whether the original canvas and
      the temporary one yield a 2D context is given by `hasContext` and
      `tempHasContext`; without one the source throws, modelled as `Err`,
      and the canvas is left as it was. Each `drawImage` throws when the
      canvas it draws has a zero side: the original one before the canvas is
      touched, the small one after the canvas has been cleared. Otherwise the
      same canvas is returned, with its own size, after the calls of
      `PixelatedCommands`. */
  method PixelateCanvasData(canvas: Context, unitPixel: Option<Num>, hasContext: bool, tempHasContext: bool)
    returns (r: Result<Context>)
    modifies canvas
    ensures canvas.width == old(canvas.width) && canvas.height == old(canvas.height)
    ensures var u := UnitPixelOrDefault(unitPixel);
      r.Ok? <==> hasContext && tempHasContext && Usable(old(canvas.Image())) &&
                 Usable(Downsampled(old(canvas.Image()), u))
    ensures !(hasContext && tempHasContext && Usable(old(canvas.Image()))) ==> canvas.log == old(canvas.log)
    ensures var u := UnitPixelOrDefault(unitPixel);
      r.Err? && hasContext && tempHasContext && Usable(old(canvas.Image())) ==>
        canvas.log == old(canvas.log) + PixelatedCommands(old(canvas.Image()), u)[..2]
    ensures r.Ok? ==> r.value == canvas
    ensures r.Ok? ==> canvas.log == old(canvas.log) + PixelatedCommands(old(canvas.Image()), UnitPixelOrDefault(unitPixel))
  {
    if !hasContext {
      return Err("no 2D context for the canvas");
    }
    var u := UnitPixelOrDefault(unitPixel);
    var originalWidth, originalHeight := canvas.width, canvas.height;
    var smallWidth := LowResSize(Int(originalWidth), u);
    var smallHeight := LowResSize(Int(originalHeight), u);
    var temp := new Context(300, 150);
    if !tempHasContext {
      return Err("no 2D context for the temporary canvas");
    }
    temp.Resize(CanvasDim(smallWidth), CanvasDim(smallHeight));
    temp.Do(SetSmoothing(false));
    if !Usable(canvas.Image()) {
      return Err("InvalidStateError: the canvas drawn has a zero side");
    }
    temp.Do(DrawImage(canvas.Image(), Int(0), Int(0), smallWidth, smallHeight));
    assert temp.Image() == Downsampled(old(canvas.Image()), u);
    ghost var start := canvas.log;
    canvas.Do(SetSmoothing(false));
    canvas.Do(ClearRect(Int(0), Int(0), Int(originalWidth), Int(originalHeight)));
    assert canvas.log == start + PixelatedCommands(old(canvas.Image()), u)[..2];
    if !Usable(temp.Image()) {
      return Err("InvalidStateError: the canvas drawn has a zero side");
    }
    canvas.Do(DrawImage(temp.Image(), Int(0), Int(0), Int(originalWidth), Int(originalHeight)));
    assert canvas.log == start + PixelatedCommands(old(canvas.Image()), u);
    return Ok(canvas);
  }

  /** For a pixel size of at least 1 the small canvas has no zero side unless
      the original has one: `pixelateCanvasData` then fails exactly when a
      context is missing or the canvas has a zero side. */
  lemma SmallCanvasUsable(original: ImageSource, u: real)
    requires original.CanvasImage? && u >= 1.0
    requires original.width <= MaxDimension && original.height <= MaxDimension
    ensures Usable(Downsampled(original, Fin(u))) <==> Usable(original)
  {
    SmallCells(original.width, u);
    SmallCells(original.height, u);
  }

  /** For a pixel size of at least 1, the small canvas is
      `ceil(side / unitPixel)` on each side: scaled back up it covers the
      original and overshoots it by less than one block. */
  lemma DownsampledSize(original: ImageSource, u: real)
    requires original.CanvasImage? && u >= 1.0
    requires original.width <= MaxDimension && original.height <= MaxDimension
    ensures var small := Downsampled(original, Fin(u));
      small.width == Ceil(original.width as real / u) &&
      small.height == Ceil(original.height as real / u)
    ensures var small := Downsampled(original, Fin(u));
      original.width as real <= small.width as real * u < original.width as real + u &&
      original.height as real <= small.height as real * u < original.height as real + u
  {
    SmallCells(original.width, u);
    SmallCells(original.height, u);
  }

  /** One side of the small canvas, in the terms `Downsampled` uses. */
  lemma SmallCells(side: nat, u: real)
    requires u >= 1.0 && side <= MaxDimension
    ensures var d := CanvasDim(LowResSize(Int(side), Fin(u)));
      d == Ceil(side as real / u) && side as real <= d as real * u < side as real + u
  {
    SmallSide(side as real, u);
  }

  /** Both passes draw with smoothing off: the first draws the original over
      the whole small canvas, the second clears the original and draws the
      small canvas over all of it. */
  lemma PixelatedPasses(original: ImageSource, unitPixel: Num)
    requires original.CanvasImage?
    ensures var small := Downsampled(original, unitPixel);
      var cmds := PixelatedCommands(original, unitPixel);
      var w, h := Int(original.width), Int(original.height);
      small.log == [SetSmoothing(false), DrawImage(original, Int(0), Int(0),
                      LowResSize(w, unitPixel), LowResSize(h, unitPixel))] &&
      cmds == [SetSmoothing(false), ClearRect(Int(0), Int(0), w, h), DrawImage(small, Int(0), Int(0), w, h)]
  {
  }

  /** One side of the small canvas, for a side of at most the largest
      canvas dimension. */
  lemma SmallSide(side: real, u: real)
    requires u >= 1.0 && 0.0 <= side <= MaxDimension as real
    ensures LowResSize(Fin(side), Fin(u)) == Int(Ceil(side / u))
    ensures CanvasDim(LowResSize(Fin(side), Fin(u))) == Ceil(side / u)
    ensures side <= Ceil(side / u) as real * u < side + u
  {
    LowResCovers(side, u);
    ShrinkBelow(side, u);
  }

  /** Without a pixel size the blocks are 4 pixels wide. */
  lemma DefaultBlocks(original: ImageSource)
    requires original.CanvasImage?
    requires original.width <= MaxDimension && original.height <= MaxDimension
    ensures Downsampled(original, UnitPixelOrDefault(None)).width == Ceil(original.width as real / 4.0)
    ensures Downsampled(original, UnitPixelOrDefault(None)).height == Ceil(original.height as real / 4.0)
  {
    SmallCells(original.width, 4.0);
    SmallCells(original.height, 4.0);
  }

  /** The style object of `createCSSFilterPixelStyle`. */
  datatype FilterStyle = FilterStyle(imageRendering: string, transform: string, transformOrigin: string, filter: string)

  /** `createCSSFilterPixelStyle(unitPixel, smooth)`, with `unitPixel`
      defaulting to 4 and `smooth` to false. The numbers in the transform are
      printed by `String(number)`, whose digits for a non-integer are `frac`. */
  function CreateCSSFilterPixelStyle(unitPixel: Option<Num>, smooth: Option<bool>, frac: (real, nat) -> string)
    : (s: FilterStyle)
    ensures s.imageRendering == "auto" <==> smooth == Some(true)
    ensures s.imageRendering == "pixelated" <==> smooth != Some(true)
    ensures s.filter == "none" <==> smooth == Some(true)
    ensures s.transformOrigin == "top left"
  {
    var u := UnitPixelOrDefault(unitPixel);
    var scale := Div(Int(1), u);
    var smoothing := smooth == Some(true);
    FilterStyle(if smoothing then "auto" else "pixelated",
                "scale(" + NumToString(scale, 10, frac) + ") scale(" + NumToString(u, 10, frac) + ")",
                "top left",
                if smoothing then "none" else "blur(0.5px) contrast(120%)")
  }

  /** The two factors of the transform undo each other for any finite,
      non-zero pixel size: the element keeps its size. A zero pixel size
      gives `scale(Infinity) scale(0)`. */
  lemma TransformCancels(u: Num)
    ensures u.Fin? && u.v != 0.0 ==> Mul(Div(Int(1), u), u) == Int(1)
    ensures u == Int(0) ==> Div(Int(1), u) == PosInf
  {
    if u.Fin? && u.v != 0.0 {
      var q := 1.0 / u.v;
      assert q * u.v == 1.0;
    }
  }

  /** With no arguments the style is the pixelated one at a quarter scale and
      back up by 4. */
  lemma DefaultFilterStyle(frac: (real, nat) -> string)
    ensures CreateCSSFilterPixelStyle(None, None, frac) ==
      FilterStyle("pixelated", "scale(" + frac(0.25, 10) + ") scale(4)", "top left", "blur(0.5px) contrast(120%)")
  {
    assert Div(Int(1), Int(4)) == Fin(0.25);
    assert Floor(0.25) == 0;
    assert Floor(4.0) == 4;
    assert NatToRadix(4, 10) == "4";
  }
}
