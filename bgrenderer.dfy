/** The background renderer of the core package: a background colour, a linear
    gradient and a border are drawn on a canvas shrunk by the pixel size, and
    that canvas is scaled back up with smoothing off, so every low-resolution
    pixel becomes a visible block. */
module BackgroundRenderer {
  import opened Js
  import opened Text
  import opened NumText
  import opened Wrappers
  import opened PixelTypes
  import opened Canvas2D
  import opened RoundedPath
  import opened Patterns
  import CssParser
  import CssUnit

  /** The parts of a style the renderer draws.  (The source type also has a
      box shadow, which nothing reads.) */
  datatype BackgroundStyle = BackgroundStyle(
    backgroundColor: Option<PixelColor>,
    backgroundImage: Option<PixelGradient>,
    border: Option<Border>,
    borderRadius: Option<PixelUnit>)

  datatype RenderOptions = RenderOptions(width: Num, height: Num, pixelSize: Num)

  /** window.innerWidth and window.innerHeight. */
  datatype Viewport = Viewport(innerWidth: Num, innerHeight: Num)

  /** `unitToPixels(unit, containerSize)`: em and rem assume a 16px font. */
  function UnitToPixels(u: PixelUnit, containerSize: Num, vp: Viewport): Num {
    match u.unit
    case Px => u.value
    case Percent => Mul(Div(u.value, Int(100)), containerSize)
    case Em => Mul(u.value, Int(16))
    case Rem => Mul(u.value, Int(16))
    case Vw => Mul(Div(u.value, Int(100)), vp.innerWidth)
    case Vh => Mul(Div(u.value, Int(100)), vp.innerHeight)
  }

  /** The unit rules on finite numbers. */
  lemma UnitToPixelsRules(v: real, container: real, vp: Viewport)
    ensures UnitToPixels(PixelUnit(Fin(v), Px), Fin(container), vp) == Fin(v)
    ensures UnitToPixels(PixelUnit(Fin(v), Percent), Fin(container), vp) == Fin(v / 100.0 * container)
    ensures UnitToPixels(PixelUnit(Fin(v), Em), Fin(container), vp) == Fin(v * 16.0)
    ensures UnitToPixels(PixelUnit(Fin(v), Rem), Fin(container), vp) == Fin(v * 16.0)
  {
  }

  /** The renderer's conversion agrees with the parser's pixelUnit resolution
      once the container is the element width and both font sizes are 16px. */
  lemma UnitToPixelsAgreesWithResolve(u: PixelUnit, c: CssUnit.UnitContext)
    requires c.rootFontSize == 16.0 && c.parentFontSize == 16.0
    ensures UnitToPixels(u, Fin(c.clientWidth), Viewport(Fin(c.innerWidth), Fin(c.innerHeight)))
      == CssUnit.Resolve(u.value, UnitName(u.unit), c)
  {
  }

  /** `Math.ceil(size / pixelSize)`, the side of the low-resolution canvas. */
  function LowResSize(size: Num, pixelSize: Num): Num {
    MathCeil(Div(size, pixelSize))
  }

  /** The low-resolution canvas, scaled back by the pixel size, covers the
      original and overshoots it by less than one block; a non-empty side keeps
      at least one pixel. */
  lemma LowResCovers(size: real, pixelSize: real)
    requires size >= 0.0 && pixelSize > 0.0
    ensures LowResSize(Fin(size), Fin(pixelSize)).Fin?
    ensures var n := LowResSize(Fin(size), Fin(pixelSize)).v;
      size <= n * pixelSize < size + pixelSize && (size > 0.0 ==> n >= 1.0)
  {
    var q := size / pixelSize;
    assert Div(Fin(size), Fin(pixelSize)) == Fin(q);
    var n := Ceil(q) as real;
    assert LowResSize(Fin(size), Fin(pixelSize)) == Fin(n);
    CeilScaled(size, pixelSize, n);
  }

  lemma CeilScaled(size: real, p: real, n: real)
    requires p > 0.0 && size / p <= n < size / p + 1.0
    ensures size <= n * p < size + p
  {
    var q := size / p;
    assert q * p == size;
    var d := q + 1.0 - n;
    assert d * p > 0.0;
    assert d * p == q * p + p - n * p;
    var e := n - q;
    assert e * p >= 0.0;
    assert e * p == n * p - q * p;
  }

  /** The text `rgba(r, g, b, a / 255)` of a colour. */
  function Rgba(c: PixelColor): ColorText {
    RgbaText(c.r, c.g, c.b, Div(c.a, Int(255)))
  }

  /** The border width after scaling: below one pixel it is raised to at least
      half a pixel, below two it is rounded up, and wider borders are kept. */
  function AdjustedBorderWidth(s: Num): Num {
    if Less(s, Int(1)) then MathMax(Fin(0.5), s)
    else if Less(s, Int(2)) then MathCeil(s)
    else s
  }

  /** Adjusting never thins a border, always leaves at least half a pixel,
      keeps borders of two pixels or more, and adjusting twice changes nothing. */
  lemma AdjustedBorderWidthBounds(s: real)
    ensures AdjustedBorderWidth(Fin(s)).Fin?
    ensures AdjustedBorderWidth(Fin(s)).v >= s && AdjustedBorderWidth(Fin(s)).v >= 0.5
    ensures s >= 2.0 ==> AdjustedBorderWidth(Fin(s)) == Fin(s)
    ensures 1.0 <= s < 2.0 ==> AdjustedBorderWidth(Fin(s)).v in {1.0, 2.0}
    ensures AdjustedBorderWidth(AdjustedBorderWidth(Fin(s))) == AdjustedBorderWidth(Fin(s))
  {
  }

  /** A wider border never comes out thinner. */
  lemma AdjustedBorderWidthMonotone(s: real, t: real)
    requires s <= t
    ensures AdjustedBorderWidth(Fin(s)).v <= AdjustedBorderWidth(Fin(t)).v
  {
  }

  /** The dash pattern: dashes twice the width with gaps of one width, dots of
      one width, anything else a continuous line. */
  function LineDash(style: string, s: Num): seq<Num> {
    if style == "dashed" then [Mul(s, Int(2)), s]
    else if style == "dotted" then [s, s]
    else []
  }

  /** The border width in low-resolution pixels: the width in pixels divided
      by the pixel size (the original width over the low-resolution width),
      then adjusted. */
  function ScaledBorderWidth(border: Border, lowW: Num, origW: Num, origH: Num, vp: Viewport): Num {
    AdjustedBorderWidth(Div(UnitToPixels(border.width, MathMin(origW, origH), vp), Div(origW, lowW)))
  }

  /** The radius in low-resolution pixels, when one is given. */
  function RadiusPx(radius: Option<PixelUnit>, lowW: Num, origW: Num, origH: Num, vp: Viewport): Option<Num> {
    match radius
    case Some(r) => Some(Div(UnitToPixels(r, MathMin(origW, origH), vp), Div(origW, lowW)))
    case None => None
  }

  /** The stroked shape: with a radius, a rounded path whose radius is shrunk by
      half the line width (never below 0), between save and restore; without,
      a rectangle inset by half the line width. */
  function BorderShape(lowW: Num, lowH: Num, s: Num, radius: Option<Num>): seq<DrawCmd> {
    match radius
    case Some(rad) =>
      [Save] + RoundedRectPath(lowW, lowH, Uniform(MathMax(Int(0), Sub(rad, Div(s, Int(2)))))) + [Stroke, Restore]
    case None =>
      [StrokeRect(Div(s, Int(2)), Div(s, Int(2)), Sub(lowW, s), Sub(lowH, s))]
  }

  /** What `renderBorderLowRes` issues: stroke colour, line width, dash pattern, shape. */
  function BorderCommands(border: Border, lowW: Num, lowH: Num, origW: Num, origH: Num,
                          radius: Option<PixelUnit>, vp: Viewport): seq<DrawCmd>
  {
    var s := ScaledBorderWidth(border, lowW, origW, origH, vp);
    [SetStrokeStyle(Solid(Rgba(border.color))), SetLineWidth(s), SetLineDash(LineDash(border.style, s))]
    + BorderShape(lowW, lowH, s, RadiusPx(radius, lowW, origW, origH, vp))
  }

  /** Without a radius the border is stroked along a rectangle inset by half
      the line width, so the whole stroke lies on the canvas, flush with its
      edges. */
  lemma BorderStrokeInside(lowW: real, lowH: real, s: real)
    ensures var cmds := BorderShape(Fin(lowW), Fin(lowH), Fin(s), None);
      |cmds| == 1 && cmds[0].StrokeRect? &&
      cmds[0].x == cmds[0].y == Fin(s / 2.0) &&
      cmds[0].x.v - s / 2.0 == 0.0 && cmds[0].x.v + cmds[0].w.v + s / 2.0 == lowW &&
      cmds[0].y.v - s / 2.0 == 0.0 && cmds[0].y.v + cmds[0].h.v + s / 2.0 == lowH
  {
  }

  /** With a radius the stroked path's corner radius is `max(0, r - s/2)`: never
      negative, and smaller than the clip radius by half the line width when
      that is positive. */
  lemma BorderRadiusShrunk(lowW: Num, lowH: Num, s: real, rad: real)
    ensures var cmds := BorderShape(lowW, lowH, Fin(s), Some(Fin(rad)));
      |cmds| == 14 && cmds[2] == MoveTo(Fin(if rad - s / 2.0 > 0.0 then rad - s / 2.0 else 0.0), Int(0))
  {
    var zero, two := Int(0), Int(2);
    assert zero == Fin(0.0) && two == Fin(2.0);
    var half := Div(Fin(s), two);
    assert half == Fin(s / 2.0);
    var d := Sub(Fin(rad), half);
    assert d == Fin(rad - s / 2.0);
    var r := MathMax(zero, d);
    assert r == Fin(if rad - s / 2.0 > 0.0 then rad - s / 2.0 else 0.0);
    ShapeStart(lowW, lowH, Fin(s), r);
  }

  lemma ShapeStart(lowW: Num, lowH: Num, s: Num, r: Num)
    ensures var cmds := [Save] + RoundedRectPath(lowW, lowH, Uniform(r)) + [Stroke, Restore];
      |cmds| == 14 && cmds[2] == MoveTo(r, Int(0))
  {
    var path := RoundedRectPath(lowW, lowH, Uniform(r));
    assert ([Save] + path + [Stroke, Restore])[2] == path[1];
  }

  /** The adjustment as the source writes it, reassigning the width. */
  method AdjustWidth(s: Num) returns (scaled: Num)
    ensures scaled == AdjustedBorderWidth(s)
  {
    scaled := s;
    if Less(scaled, Int(1)) {
      scaled := MathMax(Fin(0.5), scaled);
    } else if Less(scaled, Int(2)) {
      scaled := MathCeil(scaled);
    }
  }

  /** `renderBorderLowRes`. */
  method RenderBorderLowRes(ctx: Context, border: Border, lowW: Num, lowH: Num, origW: Num, origH: Num,
                            radius: Option<PixelUnit>, vp: Viewport)
    modifies ctx
    ensures ctx.log == old(ctx.log) + BorderCommands(border, lowW, lowH, origW, origH, radius, vp)
    ensures ctx.width == old(ctx.width) && ctx.height == old(ctx.height)
  {
    var borderWidth := UnitToPixels(border.width, MathMin(origW, origH), vp);
    var pixelSize := Div(origW, lowW);
    var scaled := AdjustWidth(Div(borderWidth, pixelSize));
    ctx.DoAll([SetStrokeStyle(Solid(Rgba(border.color))), SetLineWidth(scaled),
               SetLineDash(LineDash(border.style, scaled))]
              + BorderShape(lowW, lowH, scaled, RadiusPx(radius, lowW, origW, origH, vp)));
  }

  /** `renderGradientLowRes`: a linear gradient along the given angle through
      the centre of the canvas; a radial gradient draws nothing. */
  function GradientCommands(g: PixelGradient, w: Num, h: Num, t: Trig): seq<DrawCmd> {
    if g.kind == Linear then
      var angle := Radians(t, Or(g.angle, Int(0)));
      var dx := Div(Mul(MathCos(t, angle), w), Int(2));
      var dy := Div(Mul(MathSin(t, angle), h), Int(2));
      var stops := seq(|g.stops|, i requires 0 <= i < |g.stops| =>
        ColorStop(g.stops[i].position, Rgba(g.stops[i].color)));
      [ SetFillStyle(LinearGradient(Sub(Div(w, Int(2)), dx), Sub(Div(h, Int(2)), dy),
                                    Add(Div(w, Int(2)), dx), Add(Div(h, Int(2)), dy), stops)),
        FillRect(Int(0), Int(0), w, h) ]
    else []
  }

  /** The gradient line is centred on the canvas and keeps every stop, in order. */
  lemma GradientCentred(g: PixelGradient, w: real, h: real, t: Trig)
    requires g.kind == Linear && g.angle.Fin?
    ensures var cmds := GradientCommands(g, Fin(w), Fin(h), t);
      |cmds| == 2 && cmds[0].SetFillStyle? && cmds[0].paint.LinearGradient? &&
      var p := cmds[0].paint;
      p.x0.v + p.x1.v == w && p.y0.v + p.y1.v == h &&
      |p.stops| == |g.stops| &&
      forall i :: 0 <= i < |g.stops| ==> p.stops[i].offset == g.stops[i].position
  {
  }

  /** The rounded clip, when a radius is given. */
  function ClipLayer(style: BackgroundStyle, o: RenderOptions, vp: Viewport, lw: Num, lh: Num): seq<DrawCmd> {
    match style.borderRadius
    case Some(r) =>
      RoundedRectPath(lw, lh, Uniform(Div(UnitToPixels(r, MathMin(o.width, o.height), vp), o.pixelSize))) + [Clip]
    case None => []
  }

  function ColorLayer(style: BackgroundStyle, lw: Num, lh: Num): seq<DrawCmd> {
    match style.backgroundColor
    case Some(c) => [SetFillStyle(Solid(Rgba(c))), FillRect(Int(0), Int(0), lw, lh)]
    case None => []
  }

  function GradientLayer(style: BackgroundStyle, lw: Num, lh: Num, t: Trig): seq<DrawCmd> {
    match style.backgroundImage
    case Some(g) => GradientCommands(g, lw, lh, t)
    case None => []
  }

  /** A border is drawn only when its width is positive. */
  predicate DrawsBorder(style: BackgroundStyle) {
    style.border.Some? && Less(Int(0), style.border.value.width.value)
  }

  function BorderLayer(style: BackgroundStyle, o: RenderOptions, vp: Viewport, lw: Num, lh: Num): seq<DrawCmd> {
    if DrawsBorder(style) then BorderCommands(style.border.value, lw, lh, o.width, o.height, style.borderRadius, vp)
    else []
  }

  /** What `renderBackgroundToLowRes` issues on the fresh low-resolution canvas:
      smoothing off, then the rounded clip, the colour, the gradient and the border. */
  function LowResCommands(style: BackgroundStyle, o: RenderOptions, vp: Viewport, t: Trig): seq<DrawCmd> {
    var lw := LowResSize(o.width, o.pixelSize);
    var lh := LowResSize(o.height, o.pixelSize);
    [SetSmoothing(false)] + ClipLayer(style, o, vp, lw, lh) + ColorLayer(style, lw, lh)
    + GradientLayer(style, lw, lh, t) + BorderLayer(style, o, vp, lw, lh)
  }

  predicate IsStroke(c: DrawCmd) { c.Stroke? || c.StrokeRect? }

  predicate Strokes(cmds: seq<DrawCmd>) {
    exists i :: 0 <= i < |cmds| && IsStroke(cmds[i])
  }

  predicate Clips(cmds: seq<DrawCmd>) {
    exists i :: 0 <= i < |cmds| && cmds[i].Clip?
  }

  lemma StrokesAppend(a: seq<DrawCmd>, b: seq<DrawCmd>)
    ensures Strokes(a + b) <==> Strokes(a) || Strokes(b)
  {
    if Strokes(a + b) {
      var i :| 0 <= i < |a + b| && IsStroke((a + b)[i]);
      if i < |a| { assert a[i] == (a + b)[i]; } else { assert b[i - |a|] == (a + b)[i]; }
    }
    if Strokes(a) {
      var i :| 0 <= i < |a| && IsStroke(a[i]);
      assert (a + b)[i] == a[i];
    }
    if Strokes(b) {
      var i :| 0 <= i < |b| && IsStroke(b[i]);
      assert (a + b)[|a| + i] == b[i];
    }
  }

  lemma ClipsAppend(a: seq<DrawCmd>, b: seq<DrawCmd>)
    ensures Clips(a + b) <==> Clips(a) || Clips(b)
  {
    if Clips(a + b) {
      var i :| 0 <= i < |a + b| && (a + b)[i].Clip?;
      if i < |a| { assert a[i] == (a + b)[i]; } else { assert b[i - |a|] == (a + b)[i]; }
    }
    if Clips(a) {
      var i :| 0 <= i < |a| && a[i].Clip?;
      assert (a + b)[i] == a[i];
    }
    if Clips(b) {
      var i :| 0 <= i < |b| && b[i].Clip?;
      assert (a + b)[|a| + i] == b[i];
    }
  }

  lemma NoStrokeInPath(w: Num, h: Num, r: Radii)
    ensures !Strokes(RoundedRectPath(w, h, r)) && !Clips(RoundedRectPath(w, h, r))
  {
    var p := RoundedRectPath(w, h, r);
    assert forall i :: 0 <= i < |p| ==> !IsStroke(p[i]) && !p[i].Clip?;
  }

  lemma ClipLayerClips(style: BackgroundStyle, o: RenderOptions, vp: Viewport, lw: Num, lh: Num)
    ensures Clips(ClipLayer(style, o, vp, lw, lh)) <==> style.borderRadius.Some?
    ensures !Strokes(ClipLayer(style, o, vp, lw, lh))
  {
    if style.borderRadius.Some? {
      var r := Uniform(Div(UnitToPixels(style.borderRadius.value, MathMin(o.width, o.height), vp), o.pixelSize));
      NoStrokeInPath(lw, lh, r);
      ClipsAppend(RoundedRectPath(lw, lh, r), [Clip]);
      StrokesAppend(RoundedRectPath(lw, lh, r), [Clip]);
      assert [Clip][0].Clip?;
    }
  }

  lemma BorderLayerStrokes(style: BackgroundStyle, o: RenderOptions, vp: Viewport, lw: Num, lh: Num)
    ensures Strokes(BorderLayer(style, o, vp, lw, lh)) <==> DrawsBorder(style)
    ensures !Clips(BorderLayer(style, o, vp, lw, lh))
  {
    if DrawsBorder(style) {
      var b := style.border.value;
      var s := ScaledBorderWidth(b, lw, o.width, o.height, vp);
      var front := [SetStrokeStyle(Solid(Rgba(b.color))), SetLineWidth(s), SetLineDash(LineDash(b.style, s))];
      var rad := RadiusPx(style.borderRadius, lw, o.width, o.height, vp);
      var shape := BorderShape(lw, lh, s, rad);
      assert !Strokes(front) && !Clips(front);
      StrokesAppend(front, shape);
      ClipsAppend(front, shape);
      match rad {
        case Some(r) =>
          var rr := Uniform(MathMax(Int(0), Sub(r, Div(s, Int(2)))));
          NoStrokeInPath(lw, lh, rr);
          StrokesAppend([Save], RoundedRectPath(lw, lh, rr));
          ClipsAppend([Save], RoundedRectPath(lw, lh, rr));
          StrokesAppend([Save] + RoundedRectPath(lw, lh, rr), [Stroke, Restore]);
          ClipsAppend([Save] + RoundedRectPath(lw, lh, rr), [Stroke, Restore]);
          assert IsStroke([Stroke, Restore][0]);
        case None =>
          assert IsStroke(shape[0]);
      }
    }
  }

  /** The low-resolution canvas is clipped exactly when a radius is given, and
      something is stroked exactly when a border of positive width is given. */
  lemma LowResLayers(style: BackgroundStyle, o: RenderOptions, vp: Viewport, t: Trig)
    ensures Clips(LowResCommands(style, o, vp, t)) <==> style.borderRadius.Some?
    ensures Strokes(LowResCommands(style, o, vp, t)) <==> DrawsBorder(style)
  {
    var lw := LowResSize(o.width, o.pixelSize);
    var lh := LowResSize(o.height, o.pixelSize);
    var head: seq<DrawCmd> := [SetSmoothing(false)];
    var clip, colour := ClipLayer(style, o, vp, lw, lh), ColorLayer(style, lw, lh);
    var grad, border := GradientLayer(style, lw, lh, t), BorderLayer(style, o, vp, lw, lh);
    assert !Strokes(head) && !Clips(head);
    assert !Strokes(colour) && !Clips(colour);
    assert !Strokes(grad) && !Clips(grad);
    ClipLayerClips(style, o, vp, lw, lh);
    BorderLayerStrokes(style, o, vp, lw, lh);
    StrokesAppend(head, clip);
    StrokesAppend(head + clip, colour);
    StrokesAppend(head + clip + colour, grad);
    StrokesAppend(head + clip + colour + grad, border);
    ClipsAppend(head, clip);
    ClipsAppend(head + clip, colour);
    ClipsAppend(head + clip + colour, grad);
    ClipsAppend(head + clip + colour + grad, border);
  }

  /** `createRoundedPath`. */
  method CreateRoundedPath(ctx: Context, w: Num, h: Num, radius: Num)
    modifies ctx
    ensures ctx.log == old(ctx.log) + RoundedRectPath(w, h, Uniform(radius))
    ensures ctx.width == old(ctx.width) && ctx.height == old(ctx.height)
  {
    ctx.DoAll(RoundedRectPath(w, h, Uniform(radius)));
  }

  /** `renderBackgroundToLowRes`: a fresh canvas of the low-resolution size. */
  method RenderBackgroundToLowRes(style: BackgroundStyle, o: RenderOptions, vp: Viewport, t: Trig)
    returns (canvas: Context)
    ensures fresh(canvas)
    ensures canvas.width == CanvasDim(LowResSize(o.width, o.pixelSize))
    ensures canvas.height == CanvasDim(LowResSize(o.height, o.pixelSize))
    ensures canvas.log == LowResCommands(style, o, vp, t)
  {
    var lw := LowResSize(o.width, o.pixelSize);
    var lh := LowResSize(o.height, o.pixelSize);
    canvas := new Context(CanvasDim(lw), CanvasDim(lh));
    canvas.Do(SetSmoothing(false));
    assert canvas.log == [SetSmoothing(false)];
    DrawClipLayer(canvas, style, o, vp, lw, lh);
    DrawColorLayer(canvas, style, lw, lh);
    DrawGradientLayer(canvas, style, lw, lh, t);
    DrawBorderLayer(canvas, style, o, vp, lw, lh);
  }

  /** The gradient step of `renderBackgroundToLowRes`. */
  method DrawGradientLayer(canvas: Context, style: BackgroundStyle, lw: Num, lh: Num, t: Trig)
    modifies canvas
    ensures canvas.log == old(canvas.log) + GradientLayer(style, lw, lh, t)
    ensures canvas.width == old(canvas.width) && canvas.height == old(canvas.height)
  {
    if style.backgroundImage.Some? {
      canvas.DoAll(GradientCommands(style.backgroundImage.value, lw, lh, t));
    } else {
      assert canvas.log + [] == canvas.log;
    }
  }

  /** The border step of `renderBackgroundToLowRes`. */
  method DrawBorderLayer(canvas: Context, style: BackgroundStyle, o: RenderOptions, vp: Viewport, lw: Num, lh: Num)
    modifies canvas
    ensures canvas.log == old(canvas.log) + BorderLayer(style, o, vp, lw, lh)
    ensures canvas.width == old(canvas.width) && canvas.height == old(canvas.height)
  {
    if style.border.Some? && Less(Int(0), style.border.value.width.value) {
      RenderBorderLowRes(canvas, style.border.value, lw, lh, o.width, o.height, style.borderRadius, vp);
    } else {
      assert canvas.log + [] == canvas.log;
    }
  }

  /** The clip step of `renderBackgroundToLowRes`. */
  method DrawClipLayer(canvas: Context, style: BackgroundStyle, o: RenderOptions, vp: Viewport, lw: Num, lh: Num)
    modifies canvas
    ensures canvas.log == old(canvas.log) + ClipLayer(style, o, vp, lw, lh)
    ensures canvas.width == old(canvas.width) && canvas.height == old(canvas.height)
  {
    if style.borderRadius.Some? {
      var radius := Div(UnitToPixels(style.borderRadius.value, MathMin(o.width, o.height), vp), o.pixelSize);
      CreateRoundedPath(canvas, lw, lh, radius);
      canvas.Do(Clip);
    }
  }

  /** The colour step of `renderBackgroundToLowRes`. */
  method DrawColorLayer(canvas: Context, style: BackgroundStyle, lw: Num, lh: Num)
    modifies canvas
    ensures canvas.log == old(canvas.log) + ColorLayer(style, lw, lh)
    ensures canvas.width == old(canvas.width) && canvas.height == old(canvas.height)
  {
    if style.backgroundColor.Some? {
      canvas.Do(SetFillStyle(Solid(Rgba(style.backgroundColor.value))));
      canvas.Do(FillRect(Int(0), Int(0), lw, lh));
    }
  }

  /** The image `renderPixelatedBackground` encodes: a canvas of the requested
      size onto which the low-resolution canvas is drawn stretched, smoothing off. */
  function PixelatedBackground(style: BackgroundStyle, o: RenderOptions, vp: Viewport, t: Trig): ImageSource {
    var low := CanvasImage(CanvasDim(LowResSize(o.width, o.pixelSize)),
                           CanvasDim(LowResSize(o.height, o.pixelSize)),
                           LowResCommands(style, o, vp, t));
    CanvasImage(CanvasDim(o.width), CanvasDim(o.height),
                [SetSmoothing(false), DrawImage(low, Int(0), Int(0), o.width, o.height)])
  }

  /** The result has the requested size and holds one stretched copy of a canvas
      that, for a positive pixel size, is the size divided by it, rounded up. */
  lemma PixelatedBackgroundSize(style: BackgroundStyle, w: nat, h: nat, p: real, vp: Viewport, t: Trig)
    requires w <= MaxDimension && h <= MaxDimension && p >= 1.0
    ensures var im := PixelatedBackground(style, RenderOptions(Int(w), Int(h), Fin(p)), vp, t);
      im.width == w && im.height == h && |im.log| == 2 && im.log[1].DrawImage? &&
      im.log[1].image.width == Ceil(w as real / p) && im.log[1].image.height == Ceil(h as real / p) &&
      im.log[1].dw == Int(w) && im.log[1].dh == Int(h)
  {
    ShrinkBelow(w as real, p);
    ShrinkBelow(h as real, p);
  }

  lemma ShrinkBelow(x: real, p: real)
    requires x >= 0.0 && p >= 1.0
    ensures 0.0 <= x / p <= x
  {
    var q := x / p;
    assert q * p == x;
    assert q * 1.0 <= q * p;
  }

  /** `upscaleToPixelated`. */
  method UpscaleToPixelated(low: ImageSource, targetW: Num, targetH: Num) returns (canvas: Context)
    ensures fresh(canvas)
    ensures canvas.width == CanvasDim(targetW) && canvas.height == CanvasDim(targetH)
    ensures canvas.log == [SetSmoothing(false), DrawImage(low, Int(0), Int(0), targetW, targetH)]
  {
    canvas := new Context(CanvasDim(targetW), CanvasDim(targetH));
    canvas.Do(SetSmoothing(false));
    canvas.Do(DrawImage(low, Int(0), Int(0), targetW, targetH));
  }

  /** `renderPixelatedBackground`, up to the PNG encoding of the final canvas. */
  method RenderPixelatedBackground(style: BackgroundStyle, o: RenderOptions, vp: Viewport, t: Trig)
    returns (image: ImageSource)
    ensures image == PixelatedBackground(style, o, vp, t)
  {
    var low := RenderBackgroundToLowRes(style, o, vp, t);
    var high := UpscaleToPixelated(low.Image(), o.width, o.height);
    image := high.Image();
  }

  /** `parseColorString`: three or six hex digits after `#`, anything else
      opaque black. */
  function ParseColorString(color: string): (c: PixelColor)
    ensures c.a == Int(255)
  {
    if StartsWith(color, "#") && CssParser.HexColor(color[1..]).Some? then CssParser.HexColor(color[1..]).value
    else CssParser.OpaqueBlack
  }

  /** The renderer's colour reader is the parser's restricted to hex: it agrees
      on `#rgb` and `#rrggbb` and reads everything else, named colours and
      `rgb()` included, as opaque black. */
  lemma ParseColorStringHexOnly(color: string)
    ensures StartsWith(color, "#") && (|color| == 4 || |color| == 7) ==>
      ParseColorString(color) == CssParser.ParseColor(color)
    ensures !(StartsWith(color, "#") && (|color| == 4 || |color| == 7)) ==>
      ParseColorString(color) == CssParser.OpaqueBlack
  {
  }

  lemma NamedColorIsBlack()
    ensures ParseColorString("red") == CssParser.OpaqueBlack
    ensures CssParser.ParseColor("red") != CssParser.OpaqueBlack
  {
    CssParser.RgbNeedsBackslash("red");
    ToLowerUnchanged("red");
  }

  /** `parseGradientString`: the first `linear-gradient(...)` without a `)` in
      its arguments; an angle in degrees is read from the first argument when
      it mentions `deg`, 45 otherwise; the colours are evenly spread. */
  function ParseGradientString(gradient: string): (g: Option<PixelGradient>)
    ensures g.Some? <==> FindGroup(gradient, "linear-gradient", NoClose).Some?
    ensures g.Some? ==> g.value == GradientArgs(FindGroup(gradient, "linear-gradient", NoClose).value)
  {
    match FindGroup(gradient, "linear-gradient", NoClose)
    case None => None
    case Some(params) => Some(GradientArgs(params))
  }

  /** The gradient read from the argument text of `linear-gradient(...)`. */
  function GradientArgs(params: string): (g: PixelGradient)
    ensures g.kind == Linear
    ensures forall i :: 0 <= i < |g.stops| ==> g.stops[i].color.a == Int(255)
  {
    var parts := CssParser.TrimAll(Split(params, ','));
    var (angle, start) := if Contains(parts[0], "deg") then (ParseFloat(parts[0]), 1) else (Int(45), 0);
    PixelGradient(Linear, angle, CssParser.EvenStops(parts[start..], ParseColorString))
  }

  /** Without `deg` in the first argument the angle is 45 and every argument is
      a colour stop; with it, every later argument is; the stops run evenly from
      0 to 1. */
  lemma GradientArgsStops(params: string)
    ensures var parts := Split(params, ',');
      var g := GradientArgs(params);
      (!Contains(Trim(parts[0]), "deg") ==> g.angle == Int(45) && |g.stops| == |parts|) &&
      (Contains(Trim(parts[0]), "deg") ==> |g.stops| == |parts| - 1) &&
      (|g.stops| >= 2 ==> g.stops[0].position == Int(0) && g.stops[|g.stops| - 1].position == Int(1))
  {
    var g := GradientArgs(params);
    CssParser.StopPositions(|g.stops|);
  }

  predicate Given(s: Option<string>) { s.Some? && s.value != "" }

  /** The border shorthand `width style colour`, read only when it has at least
      three space-separated parts. */
  function BorderFromText(border: string): Option<Border> {
    var parts := Split(border, ' ');
    if |parts| >= 3 then Some(Border(PixelUnit(ParseFloat(parts[0]), Px), ParseColorString(parts[2]), parts[1]))
    else None
  }

  /** The style `createPixelatedBackgroundURL` builds from its text arguments;
      empty texts count as absent. */
  function TextStyle(backgroundColor: Option<string>, backgroundImage: Option<string>,
                     borderRadius: Option<string>, border: Option<string>): BackgroundStyle
  {
    BackgroundStyle(
      if Given(backgroundColor) then Some(ParseColorString(backgroundColor.value)) else None,
      if Given(backgroundImage) && Contains(backgroundImage.value, "gradient")
        then ParseGradientString(backgroundImage.value) else None,
      if Given(border) then BorderFromText(border.value) else None,
      if Given(borderRadius) then Some(PixelUnit(ParseFloat(borderRadius.value), Px)) else None)
  }

  /** A border text is used exactly when it has at least two spaces, a background
      image only when it names a gradient, and a given radius is always in px. */
  lemma TextStyleFields(backgroundColor: Option<string>, backgroundImage: Option<string>,
                        borderRadius: Option<string>, border: Option<string>)
    ensures var st := TextStyle(backgroundColor, backgroundImage, borderRadius, border);
      (st.border.Some? <==> border.Some? && Count(border.value, ' ') >= 2) &&
      (st.backgroundImage.Some? ==> Contains(backgroundImage.value, "gradient")) &&
      (st.borderRadius.Some? <==> Given(borderRadius)) &&
      (st.borderRadius.Some? ==> st.borderRadius.value.unit == Px) &&
      (st.backgroundColor.Some? ==> st.backgroundColor.value.a == Int(255))
  {
    if border.Some? {
      SplitLength(border.value, ' ');
      if border.value == "" { assert Count(border.value, ' ') == 0; }
    }
  }

  /** Fills the style field by field, as `createPixelatedBackgroundURL` does. */
  method StyleFromText(backgroundColor: Option<string>, backgroundImage: Option<string>,
                       borderRadius: Option<string>, border: Option<string>)
    returns (style: BackgroundStyle)
    ensures style == TextStyle(backgroundColor, backgroundImage, borderRadius, border)
  {
    style := BackgroundStyle(None, None, None, None);
    if backgroundColor.Some? && backgroundColor.value != "" {
      style := style.(backgroundColor := Some(ParseColorString(backgroundColor.value)));
    }
    if backgroundImage.Some? && backgroundImage.value != "" && Contains(backgroundImage.value, "gradient") {
      style := style.(backgroundImage := ParseGradientString(backgroundImage.value));
    }
    if borderRadius.Some? && borderRadius.value != "" {
      style := style.(borderRadius := Some(PixelUnit(ParseFloat(borderRadius.value), Px)));
    }
    if border.Some? && border.value != "" {
      var parts := Split(border.value, ' ');
      if |parts| >= 3 {
        style := style.(border := Some(Border(PixelUnit(ParseFloat(parts[0]), Px), ParseColorString(parts[2]), parts[1])));
      }
    }
  }

  /** `createPixelatedBackgroundURL`: an omitted size is 200 by 100 and an
      omitted pixel size is 4. */
  method CreatePixelatedBackgroundURL(backgroundColor: Option<string>, backgroundImage: Option<string>,
                                      borderRadius: Option<string>, border: Option<string>,
                                      width: Option<Num>, height: Option<Num>, pixelSize: Option<Num>,
                                      vp: Viewport, t: Trig)
    returns (image: ImageSource)
    ensures image == PixelatedBackground(TextStyle(backgroundColor, backgroundImage, borderRadius, border),
      RenderOptions(width.GetOr(Int(200)), height.GetOr(Int(100)), pixelSize.GetOr(Int(4))), vp, t)
  {
    var style := StyleFromText(backgroundColor, backgroundImage, borderRadius, border);
    image := RenderPixelatedBackground(style,
      RenderOptions(width.GetOr(Int(200)), height.GetOr(Int(100)), pixelSize.GetOr(Int(4))), vp, t);
  }
}
