/** `drawBorderPath`: the plain border, each side stroked as a path of its
    own, half a border width inside its canvas edge, shortened by the corner
    radii at both ends and finished by an arc round the corner that follows
    it clockwise. */
module BorderPath {
  import opened Js
  import opened Canvas2D
  import opened Border

  /** A side is left undrawn when its width is at most 0 (a NaN width is
      drawn, since `NaN <= 0` is false) or its style is `none` or `hidden`. */
  predicate Skipped(b: BorderStyle) {
    LessEq(b.width, Int(0)) || b.style == "none" || b.style == "hidden"
  }

  /** The `setLineDash` argument for a style. */
  function DashPattern(style: string, width: Num): (r: seq<Num>)
    ensures r == [] || (|r| == 2 && r[0] == r[1])
  {
    if style == "dashed" then [Mul(width, Int(3)), Mul(width, Int(3))]
    else if style == "dotted" then [width, width]
    else []
  }

  /** The side that follows a side clockwise. */
  function Next(s: Side): Side {
    match s
    case Top => Right
    case Right => Bottom
    case Bottom => Left
    case Left => Top
  }

  /** The corner a side starts from, clockwise. */
  function LeadingCorner(s: Side): Corner {
    match s
    case Top => TopLeft
    case Right => TopRight
    case Bottom => BottomRight
    case Left => BottomLeft
  }

  /** The corner a side runs into, clockwise. */
  function TrailingCorner(s: Side): Corner {
    match s
    case Top => TopRight
    case Right => BottomRight
    case Bottom => BottomLeft
    case Left => TopLeft
  }

  /** The straight part of a side on a canvas of `width` x `height`, `w`
      being half the border width: a move to its start and a line to its end. */
  function Segment(s: Side, radius: map<Corner, Num>, w: Num, width: Num, height: Num): seq<DrawCmd>
    requires AllCorners(radius)
  {
    var tl, tr, br, bl := radius[TopLeft], radius[TopRight], radius[BottomRight], radius[BottomLeft];
    match s
    case Top => [MoveTo(Add(tl, w), w), LineTo(Sub(Sub(width, tr), w), w)]
    case Right => [MoveTo(Sub(width, w), Add(tr, w)), LineTo(Sub(width, w), Sub(Sub(height, br), w))]
    case Bottom => [MoveTo(Sub(Sub(width, br), w), Sub(height, w)), LineTo(Add(bl, w), Sub(height, w))]
    case Left => [MoveTo(w, Sub(Sub(height, bl), w)), LineTo(w, Add(tl, w))]
  }

  /** The `arcTo` round the trailing corner of a side. */
  function CornerArc(s: Side, radius: map<Corner, Num>, w: Num, width: Num, height: Num): DrawCmd
    requires AllCorners(radius)
  {
    var tl, tr, br, bl := radius[TopLeft], radius[TopRight], radius[BottomRight], radius[BottomLeft];
    match s
    case Top => ArcTo(Sub(width, w), w, Sub(width, w), Add(tr, w), tr)
    case Right => ArcTo(Sub(width, w), Sub(height, w), Sub(Sub(width, br), w), Sub(height, w), br)
    case Bottom => ArcTo(w, Sub(height, w), w, Sub(Sub(height, bl), w), bl)
    case Left => ArcTo(w, w, Add(tl, w), w, tl)
  }

  /** The path of a side: its segment, then the arc when the trailing
      corner's radius is greater than 0. */
  function SidePath(s: Side, radius: map<Corner, Num>, w: Num, width: Num, height: Num): seq<DrawCmd>
    requires AllCorners(radius)
  {
    Segment(s, radius, w, width, height) +
    (if Less(Int(0), radius[TrailingCorner(s)]) then [CornerArc(s, radius, w, width, height)] else [])
  }

  /** The calls made for one side. */
  function SideCommands(s: Side, b: BorderStyle, radius: map<Corner, Num>, width: Num, height: Num): seq<DrawCmd>
    requires AllCorners(radius)
  {
    if Skipped(b) then []
    else SideSetup(b) + SidePath(s, radius, Div(b.width, Int(2)), width, height) + [Stroke]
  }

  /** The calls made for the first `n` sides, in the order top, right,
      bottom, left. */
  function PathCommands(borders: map<Side, BorderStyle>, radius: map<Corner, Num>, width: Num, height: Num, n: nat): seq<DrawCmd>
    requires AllSides(borders) && AllCorners(radius) && n <= 4
  {
    if n == 0 then []
    else
      PathCommands(borders, radius, width, height, n - 1) +
      SideCommands(Sides[n - 1], borders[Sides[n - 1]], radius, width, height)
  }

  /** Everything `drawBorderPath` draws. */
  function BorderPathCommands(borders: map<Side, BorderStyle>, radius: map<Corner, Num>, width: Num, height: Num): seq<DrawCmd>
    requires AllSides(borders) && AllCorners(radius)
  {
    PathCommands(borders, radius, width, height, 4)
  }

  // ---------------------------------------------------------------------
  // Properties

  /** The sides are drawn one after another, top, right, bottom, left. */
  lemma SidesInOrder(borders: map<Side, BorderStyle>, radius: map<Corner, Num>, width: Num, height: Num)
    requires AllSides(borders) && AllCorners(radius)
    ensures BorderPathCommands(borders, radius, width, height) ==
      SideCommands(Top, borders[Top], radius, width, height) + SideCommands(Right, borders[Right], radius, width, height) +
      SideCommands(Bottom, borders[Bottom], radius, width, height) + SideCommands(Left, borders[Left], radius, width, height)
  {
    var top, right := SideCommands(Top, borders[Top], radius, width, height), SideCommands(Right, borders[Right], radius, width, height);
    var bottom, left := SideCommands(Bottom, borders[Bottom], radius, width, height), SideCommands(Left, borders[Left], radius, width, height);
    assert PathCommands(borders, radius, width, height, 1) == top;
    assert PathCommands(borders, radius, width, height, 2) == top + right;
    assert PathCommands(borders, radius, width, height, 3) == top + right + bottom;
  }

  /** A side draws nothing exactly when it is skipped; otherwise it is a path
      of its own: it opens a path, sets its own colour, line width and dash,
      and ends with the one stroke of that path. */
  lemma OwnPath(s: Side, b: BorderStyle, radius: map<Corner, Num>, width: Num, height: Num)
    requires AllCorners(radius)
    ensures var r := SideCommands(s, b, radius, width, height);
      (r == [] <==> Skipped(b)) &&
      (!Skipped(b) ==>
        |r| >= 7 && r[0] == BeginPath && r[1] == SetStrokeStyle(Solid(CssText(b.color))) &&
        r[2] == SetLineWidth(b.width) && r[3] == SetLineDash(DashPattern(b.style, b.width)) && r[|r| - 1] == Stroke &&
        forall i :: 0 < i < |r| - 1 ==> r[i] != BeginPath && r[i] != Stroke)
  {
    if !Skipped(b) {
      var p := SidePath(s, radius, Div(b.width, Int(2)), width, height);
      assert 2 <= |p| <= 3 && forall i :: 0 <= i < |p| ==> p[i] != BeginPath && p[i] != Stroke;
      var r := SideCommands(s, b, radius, width, height);
      assert r == SideSetup(b) + p + [Stroke];
      forall i | 0 < i < |r| - 1 ensures r[i] != BeginPath && r[i] != Stroke {
        if i >= 4 {
          assert r[i] == p[i - 4];
        }
      }
    }
  }

  /** Dashes and gaps are equal; `dashed` ones are three times as long as
      `dotted` ones, and every other style is a solid line. */
  lemma DashShapes(style: string, width: Num)
    ensures DashPattern(style, width) != [] <==> style == "dashed" || style == "dotted"
    ensures width.Fin? ==>
      DashPattern("dotted", width) == [width, width] &&
      DashPattern("dashed", width) == [Fin(3.0 * width.v), Fin(3.0 * width.v)]
  {
  }

  /** Each side's segment runs clockwise half the border width `w` inside its
      canvas edge, and is as long as that edge less the radii of the two
      corners it joins and `w` at each end. */
  lemma SegmentInset(s: Side, radius: map<Corner, Num>, w: real, width: real, height: real)
    requires AllCorners(radius)
    requires forall k: Corner :: radius[k].Fin?
    ensures var seg := Segment(s, radius, Fin(w), Fin(width), Fin(height));
      var lead, trail := radius[LeadingCorner(s)].v, radius[TrailingCorner(s)].v;
      |seg| == 2 && seg[0].MoveTo? && seg[1].LineTo? &&
      seg[0].x.Fin? && seg[0].y.Fin? && seg[1].x.Fin? && seg[1].y.Fin? &&
      var x0, y0, x1, y1 := seg[0].x.v, seg[0].y.v, seg[1].x.v, seg[1].y.v;
      match s
      case Top => y0 == w && y1 == w && x1 - x0 == width - lead - trail - 2.0 * w
      case Right => width - x0 == w && width - x1 == w && y1 - y0 == height - lead - trail - 2.0 * w
      case Bottom => height - y0 == w && height - y1 == w && x0 - x1 == width - lead - trail - 2.0 * w
      case Left => x0 == w && x1 == w && y0 - y1 == height - lead - trail - 2.0 * w
  {
    assert radius[TopLeft].Fin? && radius[TopRight].Fin? && radius[BottomRight].Fin? && radius[BottomLeft].Fin?;
  }

  /** A side ends in an arc exactly when the radius of its trailing corner is
      greater than 0, and that arc has this radius, turns at the corner of the
      inset rectangle and ends where the next side's segment starts (for the
      same border width). */
  lemma CornerArcs(s: Side, radius: map<Corner, Num>, w: Num, width: Num, height: Num)
    requires AllCorners(radius)
    ensures var p := SidePath(s, radius, w, width, height);
      (|p| == 3 <==> Less(Int(0), radius[TrailingCorner(s)])) && |p| >= 2 &&
      (|p| == 3 ==>
        p[2].ArcTo? && p[2].radius == radius[TrailingCorner(s)] &&
        Segment(Next(s), radius, w, width, height)[0] == MoveTo(p[2].x2, p[2].y2))
    ensures var a := CornerArc(s, radius, w, width, height);
      match s
      case Top => a.x1 == Sub(width, w) && a.y1 == w
      case Right => a.x1 == Sub(width, w) && a.y1 == Sub(height, w)
      case Bottom => a.x1 == w && a.y1 == Sub(height, w)
      case Left => a.x1 == w && a.y1 == w
  {
  }

  /** Each side joins the leading corner of the next: the corners are
      visited once each round the rectangle. */
  lemma CornersRoundTheRectangle(s: Side)
    ensures TrailingCorner(s) == LeadingCorner(Next(s))
    ensures Next(Next(Next(Next(s)))) == s
  {
  }

  // ---------------------------------------------------------------------
  // Drawing

  /** The calls that open the path of a side and set its stroke. */
  function SideSetup(b: BorderStyle): seq<DrawCmd> {
    [BeginPath, SetStrokeStyle(Solid(CssText(b.color))), SetLineWidth(b.width), SetLineDash(DashPattern(b.style, b.width))]
  }

  /** `beginPath`, the stroke colour and width, and the dash switch. */
  method SetUpSide(ctx: Context, b: BorderStyle)
    modifies ctx
    ensures ctx.width == old(ctx.width) && ctx.height == old(ctx.height)
    ensures ctx.log == old(ctx.log) + SideSetup(b)
  {
    ctx.DoAll([BeginPath, SetStrokeStyle(Solid(CssText(b.color))), SetLineWidth(b.width)]);
    if b.style == "solid" {
      ctx.Do(SetLineDash([]));
    } else if b.style == "dashed" {
      ctx.Do(SetLineDash([Mul(b.width, Int(3)), Mul(b.width, Int(3))]));
    } else if b.style == "dotted" {
      ctx.Do(SetLineDash([b.width, b.width]));
    } else {
      ctx.Do(SetLineDash([]));
    }
  }

  /** The `switch (direction)`: the segment of a side and, when its trailing
      corner is rounded, the arc. */
  method TraceSide(ctx: Context, s: Side, radius: map<Corner, Num>, w: Num)
    requires AllCorners(radius)
    modifies ctx
    ensures ctx.width == old(ctx.width) && ctx.height == old(ctx.height)
    ensures ctx.log == old(ctx.log) + SidePath(s, radius, w, Int(old(ctx.width)), Int(old(ctx.height)))
  {
    var width, height := Int(ctx.width), Int(ctx.height);
    ctx.DoAll(Segment(s, radius, w, width, height));
    if Less(Int(0), radius[TrailingCorner(s)]) {
      ctx.Do(CornerArc(s, radius, w, width, height));
    }
  }

  /** One turn of the `forEach`: the calls for one side. */
  method DrawSide(ctx: Context, s: Side, b: BorderStyle, radius: map<Corner, Num>)
    requires AllCorners(radius)
    modifies ctx
    ensures ctx.width == old(ctx.width) && ctx.height == old(ctx.height)
    ensures ctx.log == old(ctx.log) + SideCommands(s, b, radius, Int(old(ctx.width)), Int(old(ctx.height)))
  {
    if Skipped(b) {
      return;
    }
    SetUpSide(ctx, b);
    TraceSide(ctx, s, radius, Div(b.width, Int(2)));
    ctx.Do(Stroke);
  }

  /** `drawBorderPath`: the four sides in order, on a canvas of the
      context's size. */
  method DrawBorderPath(ctx: Context, borders: map<Side, BorderStyle>, radius: map<Corner, Num>)
    requires AllSides(borders) && AllCorners(radius)
    modifies ctx
    ensures ctx.width == old(ctx.width) && ctx.height == old(ctx.height)
    ensures ctx.log == old(ctx.log) + BorderPathCommands(borders, radius, Int(old(ctx.width)), Int(old(ctx.height)))
  {
    var width, height := Int(ctx.width), Int(ctx.height);
    for i := 0 to 4
      invariant ctx.width == old(ctx.width) && ctx.height == old(ctx.height)
      invariant ctx.log == old(ctx.log) + PathCommands(borders, radius, width, height, i)
    {
      DrawSide(ctx, Sides[i], borders[Sides[i]], radius);
      AppendAssociative(old(ctx.log), PathCommands(borders, radius, width, height, i),
        SideCommands(Sides[i], borders[Sides[i]], radius, width, height));
    }
  }
}
