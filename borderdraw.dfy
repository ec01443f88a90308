/** `drawBorder`: a border image when the style map names one, otherwise the
    plain border with its corner radii. */
module BorderDrawing {
  import opened Js
  import opened Wrappers
  import opened Canvas2D
  import opened CssUnit
  import opened StyleMaps
  import opened Border
  import opened BorderPath
  import BorderImage
  import BackgroundImage

  /** The plain border of a style map on a canvas of `width` x `height`. */
  function PlainBorder(m: StyleMap, c: UnitContext, unitPixel: Num, width: Num, height: Num): seq<DrawCmd> {
    BorderPathCommands(SideBorders(m, c, unitPixel), CornerRadii(m, c, unitPixel), width, height)
  }

  /** The border image of a style map that names one, as drawn once its
      picture of size `natural` has loaded; `None` when drawing never ends. */
  function ImageBorder(m: StyleMap, unitPixel: Num, natural: (nat, nat), width: nat, height: nat): Option<seq<DrawCmd>>
    requires HasBorderImage(m)
  {
    BorderImage.BorderImageDrawing(ParseBorderImage(m).value, unitPixel, natural, width, height)
  }

  /** `drawBorder`. A border image takes precedence and the plain border is
      then not drawn at all; its picture's load result is `loaded`, and the
      returned outcome is that of `drawBorderImage`'s promise, which the
      source does not wait for. Without a border image the corner radii and
      the sides are parsed and stroked, and there is no outcome. */
  method DrawBorder(ctx: Context, m: StyleMap, c: UnitContext, unitPixel: Num, loaded: Option<(nat, nat)>)
    returns (imageOutcome: Option<BackgroundImage.Outcome>)
    modifies ctx
    ensures ctx.width == old(ctx.width) && ctx.height == old(ctx.height)
    ensures imageOutcome.Some? <==> HasBorderImage(m)
    ensures !HasBorderImage(m) ==>
      ctx.log == old(ctx.log) + PlainBorder(m, c, unitPixel, Int(old(ctx.width)), Int(old(ctx.height)))
    ensures HasBorderImage(m) && loaded.None? ==> ctx.log == old(ctx.log)
    ensures HasBorderImage(m) && imageOutcome.value == BackgroundImage.Resolved(true) ==>
      loaded.Some? &&
      ImageBorder(m, unitPixel, loaded.value, old(ctx.width), old(ctx.height)).Some? &&
      ctx.log == old(ctx.log) + ImageBorder(m, unitPixel, loaded.value, old(ctx.width), old(ctx.height)).value
  {
    var borderImage := ParseBorderImage(m);
    if borderImage.Some? {
      var outcome := BorderImage.DrawBorderImage(ctx, borderImage.value, unitPixel, loaded);
      if loaded.Some? {
        assert ImageBorder(m, unitPixel, loaded.value, ctx.width, ctx.height) ==
          BorderImage.BorderImageDrawing(borderImage.value, unitPixel, loaded.value, ctx.width, ctx.height);
      }
      return Some(outcome);
    }
    var radius := ParseBorderRadius(m, c, unitPixel);
    var borders := ParseBorderStyles(m, c, unitPixel);
    DrawBorderPath(ctx, borders, radius);
    return None;
  }

  /** A style map that gives no border style for a side leaves that side
      undrawn (the style defaults to `none`); with none for any side, the
      plain border draws nothing. */
  lemma NoStyleNoBorder(m: StyleMap, c: UnitContext, unitPixel: Num, width: Num, height: Num)
    requires forall s: Side, k :: k in SideKeys(s, "-style") ==> k !in m
    ensures PlainBorder(m, c, unitPixel, width, height) == []
  {
    var borders := SideBorders(m, c, unitPixel);
    forall s: Side ensures Skipped(borders[s]) {
      NoStyleSide(m, s);
      SideBorderAt(m, c, unitPixel, s);
    }
    NoSideDrawn(borders, CornerRadii(m, c, unitPixel), width, height);
  }

  /** The border of side `s` in the map of all four. */
  lemma SideBorderAt(m: StyleMap, c: UnitContext, unitPixel: Num, s: Side)
    ensures SideBorders(m, c, unitPixel)[s] == SideBorder(m, s, c, unitPixel)
  {
    var t, r := SideBorder(m, Top, c, unitPixel), SideBorder(m, Right, c, unitPixel);
    var b, l := SideBorder(m, Bottom, c, unitPixel), SideBorder(m, Left, c, unitPixel);
    assert SideBorders(m, c, unitPixel) == map[Top := t, Right := r, Bottom := b, Left := l];
    PickSide(t, r, b, l, s);
  }

  /** A lookup in a map with one entry per side. */
  lemma PickSide<T>(t: T, r: T, b: T, l: T, s: Side)
    ensures map[Top := t, Right := r, Bottom := b, Left := l][s] ==
      match s case Top => t case Right => r case Bottom => b case Left => l
  {
  }

  /** With every side skipped, the plain border draws nothing. */
  lemma NoSideDrawn(borders: map<Side, BorderStyle>, radius: map<Corner, Num>, width: Num, height: Num)
    requires AllSides(borders) && AllCorners(radius)
    requires forall s: Side :: Skipped(borders[s])
    ensures BorderPathCommands(borders, radius, width, height) == []
  {
    SidesInOrder(borders, radius, width, height);
    assert Skipped(borders[Top]) && Skipped(borders[Right]) && Skipped(borders[Bottom]) && Skipped(borders[Left]);
  }

  /** A side without a style property gets the style `none`. */
  lemma NoStyleSide(m: StyleMap, s: Side)
    requires forall k :: k in SideKeys(s, "-style") ==> k !in m
    ensures SideStyle(m, s) == "none"
  {
    var keys := SideKeys(s, "-style");
    forall j | 0 <= j < |keys| ensures Blank(FirstValue(m, keys[j])) {
      assert keys[j] in keys;
    }
    CascadeFallback(m, keys, "none");
  }
}
