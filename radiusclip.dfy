/** `applyBorderRadius`: the canvas is clipped to a rounded rectangle whose
    corner radii come from the four physical corner longhands. */
module RadiusClip {
  import opened Js
  import opened Canvas2D
  import opened CssUnit
  import opened StyleMaps
  import opened RoundedPath

  /** One corner's radius: the longhand's whole value list read as a length
      (an absent longhand reads as `'0'`) divided by the size of one canvas
      pixel. */
  function ClipRadius(m: StyleMap, key: string, c: UnitContext, unitPixel: Num): Num {
    Div(Length(m, key, c), unitPixel)
  }

  /** The four radii.  Neither the `border-radius` shorthand nor the
      flow-relative longhands are read, and no radius is clamped. */
  function ClipRadii(m: StyleMap, c: UnitContext, unitPixel: Num): Radii {
    Radii(
      ClipRadius(m, "border-top-left-radius", c, unitPixel),
      ClipRadius(m, "border-top-right-radius", c, unitPixel),
      ClipRadius(m, "border-bottom-right-radius", c, unitPixel),
      ClipRadius(m, "border-bottom-left-radius", c, unitPixel))
  }

  /** The calls `applyBorderRadius` makes on a canvas of `w` x `h`: the rounded
      rectangle path, then `clip`. */
  function RadiusClipCommands(m: StyleMap, c: UnitContext, unitPixel: Num, w: Num, h: Num): seq<DrawCmd> {
    RoundedRectPath(w, h, ClipRadii(m, c, unitPixel)) + [Clip]
  }

  /** `applyBorderRadius`: the radii are read, the rounded rectangle traced
      and the canvas clipped to it. */
  method ApplyBorderRadius(ctx: Context, m: StyleMap, c: UnitContext, unitPixel: Num)
    modifies ctx
    ensures ctx.width == old(ctx.width) && ctx.height == old(ctx.height)
    ensures ctx.log == old(ctx.log) + RadiusClipCommands(m, c, unitPixel, Int(old(ctx.width)), Int(old(ctx.height)))
  {
    var radius := ClipRadii(m, c, unitPixel);
    TraceRoundedRect(ctx, radius);
    ctx.Do(Clip);
  }

  /** The rounded rectangle of the canvas size with radii `radius`, one call
      on the context at a time. */
  method TraceRoundedRect(ctx: Context, radius: Radii)
    modifies ctx
    ensures ctx.width == old(ctx.width) && ctx.height == old(ctx.height)
    ensures ctx.log == old(ctx.log) + RoundedRectPath(Int(old(ctx.width)), Int(old(ctx.height)), radius)
  {
    ghost var start := ctx.log;
    ctx.Do(BeginPath);
    var width, height := Int(ctx.width), Int(ctx.height);
    ghost var p := EdgePoints(width, height, radius);
    ghost var k := Corners(width, height);
    ctx.Do(MoveTo(radius.topLeft, Int(0)));
    ghost var log := [BeginPath, MoveTo(radius.topLeft, Int(0))];
    assert ctx.log == start + log;
    TraceCorner(ctx, Point(Sub(width, radius.topRight), Int(0)), Point(width, Int(0)), Point(width, radius.topRight));
    log := log + Corner(p[1], k[0], p[2]);
    assert ctx.log == start + log;
    TraceCorner(ctx, Point(width, Sub(height, radius.bottomRight)), Point(width, height), Point(Sub(width, radius.bottomRight), height));
    log := log + Corner(p[3], k[1], p[4]);
    assert ctx.log == start + log;
    TraceCorner(ctx, Point(radius.bottomLeft, height), Point(Int(0), height), Point(Int(0), Sub(height, radius.bottomLeft)));
    log := log + Corner(p[5], k[2], p[6]);
    assert ctx.log == start + log;
    TraceCorner(ctx, Point(Int(0), radius.topLeft), Point(Int(0), Int(0)), Point(radius.topLeft, Int(0)));
    log := log + Corner(p[7], k[3], p[0]);
    assert ctx.log == start + log;
    ctx.Do(ClosePath);
  }

  /** A straight edge to `edge`, then a curve bending at `corner` and ending at `next`. */
  method TraceCorner(ctx: Context, edge: Point, corner: Point, next: Point)
    modifies ctx
    ensures ctx.width == old(ctx.width) && ctx.height == old(ctx.height)
    ensures ctx.log == old(ctx.log) + Corner(edge, corner, next)
  {
    ctx.Do(LineTo(edge.x, edge.y));
    ctx.Do(QuadTo(corner.x, corner.y, next.x, next.y));
  }

  /** The clip path starts and ends at the end of the top-left curve, passes
      through the eight edge points clockwise, bends at the four canvas
      corners, and is closed before `clip`. */
  lemma ClipOutline(w: Num, h: Num, r: Radii)
    ensures var cmds := RoundedRectPath(w, h, r) + [Clip];
      |cmds| == 12 && cmds[0] == BeginPath && cmds[10] == ClosePath && cmds[11] == Clip &&
      cmds[1] == MoveTo(r.topLeft, Int(0)) &&
      Vertices(cmds) == EdgePoints(w, h, r) + [Point(r.topLeft, Int(0))] &&
      Controls(cmds) == Corners(w, h)
  {
    RoundedRectVertices(w, h, r);
    VerticesAppend(RoundedRectPath(w, h, r), [Clip]);
    assert [Clip][1..] == [];
  }

  /** Without any of the four longhands (whatever `border-radius` says) every
      radius is 0, and the path is the canvas rectangle. */
  lemma NoLonghandsClipRectangle(m: StyleMap, c: UnitContext, unitPixel: Num, w: real, h: real)
    requires unitPixel.Fin? && unitPixel.v != 0.0
    requires "border-top-left-radius" !in m && "border-top-right-radius" !in m
    requires "border-bottom-right-radius" !in m && "border-bottom-left-radius" !in m
    ensures ClipRadii(m, c, unitPixel) == Uniform(Int(0))
    ensures Vertices(RadiusClipCommands(m, c, unitPixel, Fin(w), Fin(h))) ==
      [ Point(Int(0), Int(0)), Point(Fin(w), Int(0)), Point(Fin(w), Int(0)), Point(Fin(w), Fin(h)),
        Point(Fin(w), Fin(h)), Point(Int(0), Fin(h)), Point(Int(0), Fin(h)), Point(Int(0), Int(0)),
        Point(Int(0), Int(0)) ]
  {
    LengthOfList(m, "border-top-left-radius", c);
    LengthOfList(m, "border-top-right-radius", c);
    LengthOfList(m, "border-bottom-right-radius", c);
    LengthOfList(m, "border-bottom-left-radius", c);
    ClipOutline(Fin(w), Fin(h), ClipRadii(m, c, unitPixel));
    ZeroRadiiIsRectangle(w, h);
  }

  /** The shorthand is never consulted: changing it leaves the clip as it is. */
  lemma ShorthandNotRead(m: StyleMap, v: seq<string>, c: UnitContext, unitPixel: Num, w: Num, h: Num)
    ensures RadiusClipCommands(m["border-radius" := v], c, unitPixel, w, h) ==
      RadiusClipCommands(m, c, unitPixel, w, h)
  {
    var m' := m["border-radius" := v];
    assert ClipRadii(m', c, unitPixel) == ClipRadii(m, c, unitPixel);
  }

  /** A radius is not clamped to the canvas: a top-right radius wider than the
      canvas puts the end of the top edge left of the canvas. */
  lemma RadiusNotClamped(m: StyleMap, c: UnitContext, unitPixel: Num, w: real, h: real)
    requires ClipRadii(m, c, unitPixel).topRight.Fin? && ClipRadii(m, c, unitPixel).topRight.v > w
    ensures var p := EdgePoints(Fin(w), Fin(h), ClipRadii(m, c, unitPixel))[1];
      p.x.Fin? && p.x.v < 0.0 && p.y == Int(0)
  {
  }
}
