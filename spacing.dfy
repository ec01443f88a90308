/** `rectSize`: the border widths and paddings of an element's style map, and
    the size of its box grown by the borders (and, for `content-box`, by the
    paddings). */
module Spacing {
  import opened Js
  import opened Wrappers
  import opened CssUnit
  import opened StyleMaps
  import opened NumText

  datatype Sides = Sides(top: Num, right: Num, bottom: Num, left: Num)

  /** `styles['box-sizing'] || 'content-box'`: the property's value list when
      the style map has it (a list is truthy even when empty), the text
      `'content-box'` otherwise. */
  datatype BoxSizing = SizingList(values: seq<string>) | SizingText(text: string)

  /** The element's `clientWidth` and `clientHeight`. */
  datatype ClientArea = ClientArea(width: nat, height: nat)

  datatype Box = Box(contentWidth: Num, contentHeight: Num, border: Sides, padding: Sides, boxSizing: BoxSizing)

  /** The properties read for the four sides. */
  datatype SideKeys = SideKeys(top: string, right: string, bottom: string, left: string)

  const BorderWidthKeys := SideKeys("border-top-width", "border-right-width", "border-bottom-width", "border-left-width")

  const PaddingKeys := SideKeys("padding-top", "padding-right", "padding-bottom", "padding-left")

  /** The four sides, each property resolved to pixels; an absent one is 0. */
  function SideValues(m: StyleMap, keys: SideKeys, c: UnitContext): (s: Sides)
    ensures keys.top !in m ==> s.top == Fin(0.0)
    ensures keys.right !in m ==> s.right == Fin(0.0)
    ensures keys.bottom !in m ==> s.bottom == Fin(0.0)
    ensures keys.left !in m ==> s.left == Fin(0.0)
  {
    LengthOfList(m, keys.top, c);
    LengthOfList(m, keys.right, c);
    LengthOfList(m, keys.bottom, c);
    LengthOfList(m, keys.left, c);
    Sides(Length(m, keys.top, c), Length(m, keys.right, c), Length(m, keys.bottom, c), Length(m, keys.left, c))
  }

  function BoxSizingOf(m: StyleMap): BoxSizing {
    if "box-sizing" in m then SizingList(m["box-sizing"]) else SizingText("content-box")
  }

  /** `boxSizing === 'content-box'` as written: a list is never strictly equal
      to a text, so only the default text passes. */
  predicate ContentBoxAsWritten(b: BoxSizing) {
    b.SizingText? && b.text == "content-box"
  }

  /** The comparison as intended: the property's first value, or the default,
      is `content-box`. */
  predicate ContentBox(b: BoxSizing) {
    match b
    case SizingList(vs) => |vs| > 0 && vs[0] == "content-box"
    case SizingText(t) => t == "content-box"
  }

  /** One dimension of the box: the client size plus the borders on both
      ends, plus the paddings on both ends when `addPadding`. */
  function Extent(client: nat, border1: Num, border2: Num, padding1: Num, padding2: Num, addPadding: bool): Num {
    var e := Add(Int(client), Add(border1, border2));
    if addPadding then Add(e, Add(padding1, padding2)) else e
  }

  /** `element?.clientWidth ?? 0` and `element?.clientHeight ?? 0`. */
  function ClientOf(element: Option<ClientArea>): ClientArea {
    if element.Some? then element.value else ClientArea(0, 0)
  }

  /** The box of a client area with the given borders and paddings, the
      paddings added when `addPadding`. */
  function Measure(border: Sides, padding: Sides, sizing: BoxSizing, size: ClientArea, addPadding: bool): Box {
    Box(
      Extent(size.width, border.left, border.right, padding.left, padding.right, addPadding),
      Extent(size.height, border.top, border.bottom, padding.top, padding.bottom, addPadding),
      border, padding, sizing)
  }

  /** `rectSize` as written: the paddings are added only when the style map
      has no `box-sizing` at all. */
  function RectSizeAsWritten(m: StyleMap, c: UnitContext, element: Option<ClientArea>): (r: Box)
    ensures r.padding == SideValues(m, PaddingKeys, c) && r.border == SideValues(m, BorderWidthKeys, c)
    ensures r.boxSizing == BoxSizingOf(m)
  {
    var sizing := BoxSizingOf(m);
    Measure(SideValues(m, BorderWidthKeys, c), SideValues(m, PaddingKeys, c), sizing, ClientOf(element),
      ContentBoxAsWritten(sizing))
  }

  /** `rectSize` with the comparison made on the property's value. */
  function RectSize(m: StyleMap, c: UnitContext, element: Option<ClientArea>): (r: Box)
    ensures r.padding == SideValues(m, PaddingKeys, c) && r.border == SideValues(m, BorderWidthKeys, c)
    ensures r.boxSizing == BoxSizingOf(m)
  {
    var sizing := BoxSizingOf(m);
    Measure(SideValues(m, BorderWidthKeys, c), SideValues(m, PaddingKeys, c), sizing, ClientOf(element),
      ContentBox(sizing))
  }

  predicate FiniteSides(s: Sides) { s.top.Fin? && s.right.Fin? && s.bottom.Fin? && s.left.Fin? }

  /** With finite lengths a dimension is the client size grown by both
      borders, and by both paddings when they are added. */
  lemma ExtentArithmetic(client: nat, border1: Num, border2: Num, padding1: Num, padding2: Num, addPadding: bool)
    requires border1.Fin? && border2.Fin? && padding1.Fin? && padding2.Fin?
    ensures var e := Extent(client, border1, border2, padding1, padding2, addPadding);
      e.Fin? &&
      e.v == client as real + border1.v + border2.v + (if addPadding then padding1.v + padding2.v else 0.0)
  {
  }

  /** Measuring a style map: its resolved sides and box-sizing, the padding
      added when box-sizing is content-box. */
  lemma RectSizeMeasures(m: StyleMap, c: UnitContext, element: Option<ClientArea>)
    ensures RectSize(m, c, element) ==
      Measure(SideValues(m, BorderWidthKeys, c), SideValues(m, PaddingKeys, c), BoxSizingOf(m),
        ClientOf(element), ContentBox(BoxSizingOf(m)))
    ensures RectSizeAsWritten(m, c, element) ==
      Measure(SideValues(m, BorderWidthKeys, c), SideValues(m, PaddingKeys, c), BoxSizingOf(m),
        ClientOf(element), ContentBoxAsWritten(BoxSizingOf(m)))
  {
  }

  /** The comparison as written passes only when the style map has no
      box-sizing; the intended one also when its first value is content-box. */
  lemma SizingTests(m: StyleMap)
    ensures ContentBoxAsWritten(BoxSizingOf(m)) <==> "box-sizing" !in m
    ensures ContentBox(BoxSizingOf(m)) <==>
      "box-sizing" !in m || (|m["box-sizing"]| > 0 && m["box-sizing"][0] == "content-box")
  {
  }

  /** The paddings are added exactly when box-sizing is content-box or is not
      given; as written, only when it is not given. */
  lemma PaddingForContentBox(m: StyleMap, c: UnitContext, element: Option<ClientArea>)
    ensures var b, p := SideValues(m, BorderWidthKeys, c), SideValues(m, PaddingKeys, c);
      RectSize(m, c, element) == Measure(b, p, BoxSizingOf(m), ClientOf(element),
        "box-sizing" !in m || (|m["box-sizing"]| > 0 && m["box-sizing"][0] == "content-box"))
    ensures var b, p := SideValues(m, BorderWidthKeys, c), SideValues(m, PaddingKeys, c);
      RectSizeAsWritten(m, c, element) == Measure(b, p, BoxSizingOf(m), ClientOf(element), "box-sizing" !in m)
  {
    RectSizeMeasures(m, c, element);
    SizingTests(m);
  }

  predicate Absent(m: StyleMap, keys: SideKeys) {
    keys.top !in m && keys.right !in m && keys.bottom !in m && keys.left !in m
  }

  /** Without borders and paddings in the style map the box is the client
      area, and without an element it is empty. */
  lemma NoSpacingClientSize(m: StyleMap, c: UnitContext, element: Option<ClientArea>)
    requires Absent(m, BorderWidthKeys) && Absent(m, PaddingKeys)
    ensures var r := RectSize(m, c, element);
      r.contentWidth == Int(ClientOf(element).width) && r.contentHeight == Int(ClientOf(element).height)
  {
    var b, p := SideValues(m, BorderWidthKeys, c), SideValues(m, PaddingKeys, c);
    var size := ClientOf(element);
    var grow := ContentBox(BoxSizingOf(m));
    RectSizeMeasures(m, c, element);
    ExtentArithmetic(size.width, b.left, b.right, p.left, p.right, grow);
    ExtentArithmetic(size.height, b.top, b.bottom, p.top, p.bottom, grow);
  }

  /** The source as written ignores an explicit `box-sizing: content-box`:
      the intended box is wider and taller than the computed one by the
      paddings, so any positive padding shows the difference. */
  lemma ListedContentBoxLosesPadding(m: StyleMap, c: UnitContext, element: Option<ClientArea>)
    requires "box-sizing" in m && |m["box-sizing"]| > 0 && m["box-sizing"][0] == "content-box"
    requires FiniteSides(SideValues(m, BorderWidthKeys, c)) && FiniteSides(SideValues(m, PaddingKeys, c))
    ensures var p := SideValues(m, PaddingKeys, c);
      var intended, written := RectSize(m, c, element), RectSizeAsWritten(m, c, element);
      intended.contentWidth.Fin? && written.contentWidth.Fin? &&
      intended.contentWidth.v == written.contentWidth.v + p.left.v + p.right.v &&
      intended.contentHeight.v == written.contentHeight.v + p.top.v + p.bottom.v
  {
    var b := SideValues(m, BorderWidthKeys, c);
    var p := SideValues(m, PaddingKeys, c);
    var size := ClientOf(element);
    PaddingForContentBox(m, c, element);
    ExtentArithmetic(size.width, b.left, b.right, p.left, p.right, false);
    ExtentArithmetic(size.width, b.left, b.right, p.left, p.right, true);
    ExtentArithmetic(size.height, b.top, b.bottom, p.top, p.bottom, false);
    ExtentArithmetic(size.height, b.top, b.bottom, p.top, p.bottom, true);
  }
}
