/** `background-clip` of the newer renderer: the rectangle a background layer is
    clipped to, from the border widths and paddings of the element. */
module BackgroundClip {
  import opened Js
  import opened Canvas2D
  import opened CssUnit
  import opened StyleMaps

  datatype Bounds = Bounds(x: Num, y: Num, width: Num, height: Num)

  datatype Insets = Insets(top: Num, right: Num, bottom: Num, left: Num)

  /** The four sides of `<prefix>-<side><suffix>`, each resolved and divided by
      the size of one canvas pixel. */
  function SideLengths(m: StyleMap, prefix: string, suffix: string, c: UnitContext, unitPixel: Num): Insets {
    Insets(
      Div(Length(m, prefix + "-top" + suffix, c), unitPixel),
      Div(Length(m, prefix + "-right" + suffix, c), unitPixel),
      Div(Length(m, prefix + "-bottom" + suffix, c), unitPixel),
      Div(Length(m, prefix + "-left" + suffix, c), unitPixel))
  }

  function Padding(m: StyleMap, c: UnitContext, unitPixel: Num): Insets {
    SideLengths(m, "padding", "", c, unitPixel)
  }

  function BorderWidths(m: StyleMap, c: UnitContext, unitPixel: Num): Insets {
    SideLengths(m, "border", "-width", c, unitPixel)
  }

  /** `calculateClipBounds`: the canvas less the border for `padding-box`, less
      the border and the padding for `content-box`, and the whole canvas for
      any other mode. */
  function ClipBounds(mode: string, border: Insets, padding: Insets, w: nat, h: nat): (b: Bounds)
    ensures mode != "padding-box" && mode != "content-box" ==>
      b == Bounds(Int(0), Int(0), Int(w), Int(h))
  {
    if mode == "padding-box" then
      Bounds(border.left, border.top,
        Sub(Int(w), Add(border.left, border.right)),
        Sub(Int(h), Add(border.top, border.bottom)))
    else if mode == "content-box" then
      Bounds(Add(border.left, padding.left), Add(border.top, padding.top),
        Sub(Int(w), Add(Add(Add(border.left, border.right), padding.left), padding.right)),
        Sub(Int(h), Add(Add(Add(border.top, border.bottom), padding.top), padding.bottom)))
    else Bounds(Int(0), Int(0), Int(w), Int(h))
  }

  /** The bounds for the element's own style map. */
  function ElementClipBounds(mode: string, m: StyleMap, w: nat, h: nat, c: UnitContext, unitPixel: Num): Bounds {
    ClipBounds(mode, BorderWidths(m, c, unitPixel), Padding(m, c, unitPixel), w, h)
  }

  predicate Finite(i: Insets) { i.top.Fin? && i.right.Fin? && i.bottom.Fin? && i.left.Fin? }

  predicate NonNegative(i: Insets) {
    Finite(i) && i.top.v >= 0.0 && i.right.v >= 0.0 && i.bottom.v >= 0.0 && i.left.v >= 0.0
  }

  /** What each mode takes off each side of the canvas: nothing, the border, or
      the border and the padding. */
  function Removed(mode: string, border: Insets, padding: Insets): (r: Insets)
    requires Finite(border) && Finite(padding)
    ensures Finite(r)
  {
    if mode == "padding-box" then border
    else if mode == "content-box" then
      Insets(Fin(border.top.v + padding.top.v), Fin(border.right.v + padding.right.v),
        Fin(border.bottom.v + padding.bottom.v), Fin(border.left.v + padding.left.v))
    else Insets(Int(0), Int(0), Int(0), Int(0))
  }

  /** In every mode the rectangle starts after the left and top insets, and
      left inset + width + right inset is the canvas width (likewise for the
      height): the insets and the rectangle partition each axis. */
  lemma ClipBoundsPartition(mode: string, border: Insets, padding: Insets, w: nat, h: nat)
    requires Finite(border) && Finite(padding)
    ensures var b := ClipBounds(mode, border, padding, w, h);
      var r := Removed(mode, border, padding);
      b.x == r.left && b.y == r.top && b.width.Fin? && b.height.Fin? &&
      r.left.v + b.width.v + r.right.v == w as real &&
      r.top.v + b.height.v + r.bottom.v == h as real
  {
  }

  /** With non-negative paddings the content box lies inside the padding box. */
  lemma ContentInsidePadding(border: Insets, padding: Insets, w: nat, h: nat)
    requires Finite(border) && NonNegative(padding)
    ensures var p := ClipBounds("padding-box", border, padding, w, h);
      var q := ClipBounds("content-box", border, padding, w, h);
      p.x.v <= q.x.v && p.y.v <= q.y.v &&
      q.x.v + q.width.v <= p.x.v + p.width.v &&
      q.y.v + q.height.v <= p.y.v + p.height.v
  {
    ClipBoundsPartition("padding-box", border, padding, w, h);
    ClipBoundsPartition("content-box", border, padding, w, h);
  }

  const NoInsets := Insets(Int(0), Int(0), Int(0), Int(0))

  /** Sides the style map leaves out are not inset, whatever the pixel size. */
  lemma MissingSidesNotInset(m: StyleMap, prefix: string, suffix: string, c: UnitContext, unitPixel: Num)
    requires unitPixel.Fin? && unitPixel.v != 0.0
    requires prefix + "-top" + suffix !in m && prefix + "-right" + suffix !in m
    requires prefix + "-bottom" + suffix !in m && prefix + "-left" + suffix !in m
    ensures SideLengths(m, prefix, suffix, c, unitPixel) == NoInsets
  {
    LengthOfList(m, prefix + "-top" + suffix, c);
    LengthOfList(m, prefix + "-right" + suffix, c);
    LengthOfList(m, prefix + "-bottom" + suffix, c);
    LengthOfList(m, prefix + "-left" + suffix, c);
  }

  /** Without border widths and paddings in the style map every mode clips to
      the whole canvas. */
  lemma NoSpacingWholeCanvas(mode: string, w: nat, h: nat)
    ensures ClipBounds(mode, NoInsets, NoInsets, w, h) == Bounds(Int(0), Int(0), Int(w), Int(h))
  {
    ClipBoundsPartition(mode, NoInsets, NoInsets, w, h);
  }

  /** The calls `applyClipPath` makes: the state is saved (and not restored),
      and the clip is the bounds rectangle. */
  function ClipCommands(b: Bounds): seq<DrawCmd> {
    [Save, BeginPath, Rect(b.x, b.y, b.width, b.height), Clip]
  }

  /** `applyClipPath` on a canvas of the context's size. */
  method ApplyClipPath(ctx: Context, mode: string, m: StyleMap, c: UnitContext, unitPixel: Num)
    modifies ctx
    ensures ctx.width == old(ctx.width) && ctx.height == old(ctx.height)
    ensures ctx.log == old(ctx.log) +
      ClipCommands(ElementClipBounds(mode, m, old(ctx.width), old(ctx.height), c, unitPixel))
  {
    var b := ElementClipBounds(mode, m, ctx.width, ctx.height, c, unitPixel);
    ClipTo(ctx, b);
  }

  /** Saves the state and clips to the rectangle `b`. */
  method ClipTo(ctx: Context, b: Bounds)
    modifies ctx
    ensures ctx.width == old(ctx.width) && ctx.height == old(ctx.height)
    ensures ctx.log == old(ctx.log) + ClipCommands(b)
  {
    ctx.Do(Save);
    ctx.Do(BeginPath);
    ctx.Do(Rect(b.x, b.y, b.width, b.height));
    ctx.Do(Clip);
  }
}
