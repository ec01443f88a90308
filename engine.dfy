/** The simple pixel engine of `simple-pixel-engine.ts`: a parsed style is
    split into what the background renderer draws and what stays with the
    text; only the background is pixelated, and the container shows it
    stretched behind the text with the parsed padding and alignment. */
module PixelEngine {
  import opened Js
  import opened Text
  import opened NumText
  import opened Wrappers
  import opened PixelTypes
  import opened Canvas2D
  import opened StyleObjects
  import CssParser
  import BackgroundRenderer

  /** What the browser supplies: the window size, the trigonometry of `Math`,
      `canvas.toDataURL()` and the digits `String(number)` prints for a
      number that is not an integer. */
  datatype Host = Host(
    vp: BackgroundRenderer.Viewport,
    trig: Trig,
    toDataUrl: ImageSource -> string,
    frac: (real, nat) -> string)

  /** The text half of a separated style; `undefined` is `None`.  The source
      also copies `lineHeight`, which a parsed style never has. */
  datatype TextStyle = TextStyle(
    color: Option<string>,
    fontSize: Option<string>,
    fontFamily: Option<string>,
    fontWeight: Option<FontWeight>,
    textAlign: Option<PropValue>)

  datatype Separated = Separated(background: BackgroundRenderer.BackgroundStyle, text: TextStyle)

  /** The style of the element that shows the pixelated background. */
  datatype ContainerStyle = ContainerStyle(
    width: Num,
    height: Num,
    backgroundImage: string,
    backgroundSize: string,
    backgroundRepeat: string,
    backgroundPosition: string,
    imageRendering: string,
    display: string,
    alignItems: string,
    justifyContent: string,
    padding: StyleValue)

  datatype PixelizedResult = PixelizedResult(backgroundImage: string, textStyle: TextStyle, containerStyle: ContainerStyle)

  /** `String(n)`. */
  function Show(n: Num, frac: (real, nat) -> string): string {
    NumToString(n, 10, frac)
  }

  /** `${value}${unit}`. */
  function LengthText(u: PixelUnit, frac: (real, nat) -> string): string {
    Show(u.value, frac) + UnitName(u.unit)
  }

  /** The text colour as `rgba(r, g, b, a / 255)`. */
  function ColorCss(c: PixelColor, frac: (real, nat) -> string): string {
    "rgba(" + Show(c.r, frac) + ", " + Show(c.g, frac) + ", " + Show(c.b, frac) + ", "
      + Show(Div(c.a, Int(255)), frac) + ")"
  }

  /** The padding as the four lengths in CSS order, top, right, bottom, left. */
  function PaddingText(p: Sides, frac: (real, nat) -> string): string {
    LengthText(p.top, frac) + " " + (LengthText(p.right, frac) + " "
      + (LengthText(p.bottom, frac) + " " + LengthText(p.left, frac)))
  }

  /** `separateStyles`: the four fields the renderer draws go to the
      background, the colour and font size are printed as CSS text, and the
      other text fields are copied. */
  function SeparateStyles(p: PixelStyle, frac: (real, nat) -> string): (r: Separated)
    ensures r.background.backgroundColor == p.backgroundColor
    ensures r.background.backgroundImage == p.backgroundImage
    ensures r.background.border == p.border
    ensures r.background.borderRadius == p.borderRadius
    ensures r.text.color.Some? <==> p.color.Some?
    ensures r.text.fontSize.Some? <==> p.fontSize.Some?
    ensures r.text.fontFamily == p.fontFamily
    ensures r.text.fontWeight == p.fontWeight
    ensures r.text.textAlign == p.textAlign
  {
    Separated(
      BackgroundRenderer.BackgroundStyle(p.backgroundColor, p.backgroundImage, p.border, p.borderRadius),
      TextStyle(
        if p.color.Some? then Some(ColorCss(p.color.value, frac)) else None,
        if p.fontSize.Some? then Some(LengthText(p.fontSize.value, frac)) else None,
        p.fontFamily, p.fontWeight, p.textAlign))
  }

  /** The flex alignment that stands in for `text-align`. */
  function JustifyContent(textAlign: Option<PropValue>): (j: string)
    ensures j == "center" <==> textAlign == Some(Str("center"))
    ensures j == "flex-end" <==> textAlign == Some(Str("right"))
    ensures j == "flex-start" <==> textAlign != Some(Str("center")) && textAlign != Some(Str("right"))
  {
    if textAlign == Some(Str("center")) then "center"
    else if textAlign == Some(Str("right")) then "flex-end"
    else "flex-start"
  }

  /** The container style both entry points build. */
  function Container(o: BackgroundRenderer.RenderOptions, url: string, textAlign: Option<PropValue>, padding: StyleValue)
    : ContainerStyle
  {
    ContainerStyle(o.width, o.height, "url(" + url + ")", "cover", "no-repeat", "center", "pixelated",
                   "flex", "center", JustifyContent(textAlign), padding)
  }

  /** Separate, render the background at the requested size and encode it,
      and build the container around it. */
  function Pixelized(p: PixelStyle, padding: StyleValue, o: BackgroundRenderer.RenderOptions, host: Host)
    : (r: PixelizedResult)
    ensures r.containerStyle.backgroundImage == "url(" + r.backgroundImage + ")"
    ensures r.containerStyle.width == o.width && r.containerStyle.height == o.height
    ensures r.containerStyle.imageRendering == "pixelated"
    ensures r.containerStyle.padding == padding
    ensures r.textStyle == SeparateStyles(p, host.frac).text
    ensures r.containerStyle.justifyContent == JustifyContent(p.textAlign)
  {
    var sep := SeparateStyles(p, host.frac);
    var url := host.toDataUrl(BackgroundRenderer.PixelatedBackground(sep.background, o, host.vp, host.trig));
    PixelizedResult(url, sep.text, Container(o, url, sep.text.textAlign, padding))
  }

  /** `pixelizeCSS(cssString, options)`: the padding is printed back as text. */
  function PixelizeCSS(css: string, o: BackgroundRenderer.RenderOptions, host: Host): (r: PixelizedResult)
    ensures var p := CssParser.ParsedStyle(CssParser.Rules(css));
      r.containerStyle.padding == if p.padding.Some? then Text(PaddingText(p.padding.value, host.frac)) else Undefined
  {
    var p := CssParser.ParsedStyle(CssParser.Rules(css));
    Pixelized(p, if p.padding.Some? then Text(PaddingText(p.padding.value, host.frac)) else Undefined, o, host)
  }

  /** `pixelizeCSSProperties(cssProps, options)`: a property object that
      `cssPropertiesToPixelStyle` rejects is an error, and the padding is the
      object's own `padding`, whatever it holds. */
  function PixelizeCSSProperties(props: map<string, PropValue>, o: BackgroundRenderer.RenderOptions, host: Host)
    : (r: Result<PixelizedResult>)
    ensures r.Err? <==> CssParser.PropsStyle(CssParser.Standard, props).Err?
    ensures r.Ok? ==> r.value.containerStyle.padding == if "padding" in props then Prop(props["padding"]) else Undefined
    ensures r.Ok? ==> r.value.textStyle == SeparateStyles(CssParser.PropsStyle(CssParser.Standard, props).value, host.frac).text
  {
    var style := CssParser.PropsStyle(CssParser.Standard, props);
    if style.Err? then Err(style.error)
    else Ok(Pixelized(style.value, if "padding" in props then Prop(props["padding"]) else Undefined, o, host))
  }

  const ContainerKeys: set<string> := {
    "width", "height", "backgroundImage", "backgroundSize", "backgroundRepeat", "backgroundPosition",
    "imageRendering", "display", "alignItems", "justifyContent", "padding"}

  const TextKeys: set<string> := {"color", "fontSize", "fontFamily", "fontWeight", "textAlign", "lineHeight"}

  function OrUndefined(s: Option<string>): StyleValue {
    if s.Some? then Text(s.value) else Undefined
  }

  /** The container style as an object. */
  function ContainerObject(c: ContainerStyle): (m: StyleObject)
    ensures m.Keys == ContainerKeys
  {
    map["width" := Numeric(c.width), "height" := Numeric(c.height),
        "backgroundImage" := Text(c.backgroundImage), "backgroundSize" := Text(c.backgroundSize),
        "backgroundRepeat" := Text(c.backgroundRepeat), "backgroundPosition" := Text(c.backgroundPosition),
        "imageRendering" := Text(c.imageRendering), "display" := Text(c.display),
        "alignItems" := Text(c.alignItems), "justifyContent" := Text(c.justifyContent),
        "padding" := c.padding]
  }

  /** The text style as an object; `lineHeight` is always there, undefined. */
  function TextObject(t: TextStyle): (m: StyleObject)
    ensures m.Keys == TextKeys
  {
    map["color" := OrUndefined(t.color), "fontSize" := OrUndefined(t.fontSize),
        "fontFamily" := OrUndefined(t.fontFamily),
        "fontWeight" := if t.fontWeight.Some? then WeightValue(t.fontWeight.value) else Undefined,
        "textAlign" := if t.textAlign.Some? then Prop(t.textAlign.value) else Undefined,
        "lineHeight" := Undefined]
  }

  /** No property name is both a container and a text property. */
  lemma KeysDisjoint()
    ensures ContainerKeys !! TextKeys
  {
    forall k | k in TextKeys ensures k !in ContainerKeys {
      assert k[0] in {'c', 'f', 't', 'l'};
    }
  }

  /** `{ ...result.containerStyle, ...result.textStyle }`.  The property
      names of the two do not overlap, so every property of both survives
      the merge. */
  function MergedStyle(r: PixelizedResult): (m: StyleObject)
    ensures m.Keys == ContainerKeys + TextKeys
    ensures forall k :: k in ContainerKeys ==> m[k] == ContainerObject(r.containerStyle)[k]
    ensures forall k :: k in TextKeys ==> m[k] == TextObject(r.textStyle)[k]
  {
    KeysDisjoint();
    Spread(ContainerObject(r.containerStyle), TextObject(r.textStyle))
  }

  /** `createPixelizedStyle(css, width = 200, height = 100, pixelSize = 4)`:
      the merged style of `pixelizeCSS`, sized as asked or 200 by 100. */
  function CreatePixelizedStyle(css: string, width: Option<Num>, height: Option<Num>, pixelSize: Option<Num>, host: Host)
    : StyleObject
  {
    MergedStyle(PixelizeCSS(css, PixelizeOptions(width, height, pixelSize), host))
  }

  /** The merged style is as large as asked, 200 by 100 by default, and
      shows the rendered background. */
  lemma PixelizedStyleSize(css: string, width: Option<Num>, height: Option<Num>, pixelSize: Option<Num>, host: Host)
    ensures var m := CreatePixelizedStyle(css, width, height, pixelSize, host);
      "width" in m && "height" in m && "backgroundImage" in m &&
      m["width"] == Numeric(width.GetOr(Int(200))) && m["height"] == Numeric(height.GetOr(Int(100))) &&
      m["backgroundImage"] == Text("url(" + PixelizeCSS(css, PixelizeOptions(width, height, pixelSize), host).backgroundImage + ")")
  {
    MergedSize(PixelizeCSS(css, PixelizeOptions(width, height, pixelSize), host));
  }

  lemma MergedSize(r: PixelizedResult)
    ensures var m := MergedStyle(r);
      "width" in m && "height" in m && "backgroundImage" in m &&
      m["width"] == Numeric(r.containerStyle.width) && m["height"] == Numeric(r.containerStyle.height) &&
      m["backgroundImage"] == Text(r.containerStyle.backgroundImage)
  {
    var c := ContainerObject(r.containerStyle);
    assert "width" in ContainerKeys && "height" in ContainerKeys && "backgroundImage" in ContainerKeys;
    assert c["width"] == Numeric(r.containerStyle.width);
    assert c["height"] == Numeric(r.containerStyle.height);
    assert c["backgroundImage"] == Text(r.containerStyle.backgroundImage);
  }

  /** The options `createPixelizedStyle` passes on, with its defaults. */
  function PixelizeOptions(width: Option<Num>, height: Option<Num>, pixelSize: Option<Num>): BackgroundRenderer.RenderOptions {
    BackgroundRenderer.RenderOptions(width.GetOr(Int(200)), height.GetOr(Int(100)), pixelSize.GetOr(Int(4)))
  }

  // ----- what the printed text means -----

  /** A finite whole number: one `String` prints without fractional digits. */
  predicate WholeNumber(n: Num) {
    n.Fin? && n.v == Floor(n.v) as real
  }

  predicate WholeLength(u: PixelUnit) {
    WholeNumber(u.value)
  }

  /** A whole length printed as text reads back, through the parser's
      length reader, as the same length. */
  lemma LengthTextReadsBack(u: PixelUnit, frac: (real, nat) -> string)
    requires WholeLength(u)
    ensures CssParser.ParseUnit(Str(LengthText(u, frac))) == u
  {
    var k := Floor(u.value.v);
    assert u.value == Int(k);
    IntegerText(k, frac);
    assert LengthText(u, frac) == IntToString(k) + UnitName(u.unit);
    IntegerLengthReadsBack(k, u.unit);
  }

  /** An integer followed by a unit name reads back as that length. */
  lemma IntegerLengthReadsBack(k: int, unit: LengthUnit)
    ensures CssParser.ParseUnit(Str(IntToString(k) + UnitName(unit))) == PixelUnit(Int(k), unit)
  {
    if k < 0 {
      NegativeLengthReadsBack(k, unit);
    } else {
      NaturalLengthReadsBack(k, unit);
    }
  }

  lemma NegativeLengthReadsBack(k: int, unit: LengthUnit)
    requires k < 0
    ensures CssParser.ParseUnit(Str(IntToString(k) + UnitName(unit))) == PixelUnit(Int(k), unit)
  {
    var m: nat := -k;
    DecimalDigits(m);
    RadixRoundTrip(m, 10);
    NegativeText(k);
    NegatedDigitsReadBack(IntToString(k), NatToRadix(m, 10), k, unit);
  }

  lemma NegativeText(k: int)
    requires k < 0
    ensures IntToString(k) == "-" + NatToRadix(-k, 10)
  {
  }

  lemma NegatedDigitsReadBack(t: string, d: string, k: int, unit: LengthUnit)
    requires t == "-" + d && |d| > 0 && AllDigits(d) && RadixValue(d, 10) == -k
    ensures CssParser.ParseUnit(Str(t + UnitName(unit))) == PixelUnit(Int(k), unit)
  {
    CssParser.DigitsNumeral(d);
    CssParser.MatchUnitWith(t, unit);
    NegatedFloat(t, d, k);
    UnitOfMatch(t + UnitName(unit), t, unit, Int(k));
  }

  lemma NegatedFloat(t: string, d: string, k: int)
    requires t == "-" + d && |d| > 0 && AllDigits(d) && RadixValue(d, 10) == -k
    ensures ParseFloat(t) == Int(k)
  {
    NegatedDigitsValue(d);
    NegatedUnit(RadixValue(d, 10), k);
  }

  lemma UnitOfMatch(s: string, numeral: string, unit: LengthUnit, n: Num)
    requires CssParser.MatchUnit(s) == Some((numeral, unit)) && ParseFloat(numeral) == n
    ensures CssParser.ParseUnit(Str(s)) == PixelUnit(n, unit)
  {
  }

  lemma NegatedUnit(v: int, k: int)
    requires v == -k
    ensures Fin(-(v as real)) == Int(k)
  {
  }

  lemma NaturalLengthReadsBack(m: nat, unit: LengthUnit)
    ensures CssParser.ParseUnit(Str(IntToString(m) + UnitName(unit))) == PixelUnit(Int(m), unit)
  {
    var d := NatToRadix(m, 10);
    DecimalDigits(m);
    RadixRoundTrip(m, 10);
    CssParser.ParseUnitDigits(d, unit);
  }

  /** A whole length prints without spaces. */
  lemma LengthTextWord(u: PixelUnit, frac: (real, nat) -> string)
    requires WholeLength(u)
    ensures LengthText(u, frac) != [] && NoSpace(LengthText(u, frac))
  {
    var k := Floor(u.value.v);
    assert u.value == Int(k);
    IntegerText(k, frac);
    var m: nat := if k < 0 then -k else k;
    DecimalDigits(m);
    var t := LengthText(u, frac);
    var name := UnitName(u.unit);
    assert NoSpace(name) by {
      match u.unit
      case Px =>
      case Percent =>
      case Em =>
      case Rem =>
      case Vw =>
      case Vh =>
    }
    forall i | 0 <= i < |t| ensures !IsSpace(t[i]) {
      if i >= |t| - |name| {
        assert t[i] == name[i - (|t| - |name|)];
      }
    }
  }

  lemma SplitWord(a: string)
    requires NoSpace(a)
    ensures SplitSpaces(a) == [a]
  {
    assert a + [] == a;
    SpanNonSpaceConcat(a, []);
  }

  lemma SplitAfterWord(a: string, rest: string)
    requires NoSpace(a) && rest != [] && !IsSpace(rest[0])
    ensures SplitSpaces(a + " " + rest) == [a] + SplitSpaces(rest)
  {
    var s := a + " " + rest;
    assert s == a + (" " + rest);
    SpanNonSpaceConcat(a, " " + rest);
    assert s[..|a|] == a;
    assert s[|a|..] == " " + rest;
    SpanSpaceConcat(" ", rest);
    assert s[|a| + 1..] == rest;
  }

  /** Words joined by single spaces split back into the words. */
  lemma ThreeWords(r: string, b: string, l: string)
    requires r != [] && b != [] && l != []
    requires NoSpace(r) && NoSpace(b) && NoSpace(l)
    ensures SplitSpaces(r + " " + (b + " " + l)) == [r, b, l]
  {
    var bl := b + " " + l;
    SplitWord(l);
    SplitAfterWord(b, l);
    assert SplitSpaces(bl) == [b, l];
    assert bl[0] == b[0];
    SplitAfterWord(r, bl);
  }

  lemma FourWords(t: string, r: string, b: string, l: string)
    requires t != [] && r != [] && b != [] && l != []
    requires NoSpace(t) && NoSpace(r) && NoSpace(b) && NoSpace(l)
    ensures SplitSpaces(t + " " + (r + " " + (b + " " + l))) == [t, r, b, l]
  {
    var rbl := r + " " + (b + " " + l);
    ThreeWords(r, b, l);
    assert rbl[0] == r[0];
    SplitAfterWord(t, rbl);
  }

  /** The padding text of whole lengths splits at its spaces into exactly
      four words, and each reads back as its side, in CSS order. */
  lemma PaddingTextReadsBack(p: Sides, frac: (real, nat) -> string)
    requires WholeLength(p.top) && WholeLength(p.right) && WholeLength(p.bottom) && WholeLength(p.left)
    ensures var words := SplitSpaces(PaddingText(p, frac));
      |words| == 4 &&
      CssParser.ParseUnit(Str(words[0])) == p.top && CssParser.ParseUnit(Str(words[1])) == p.right &&
      CssParser.ParseUnit(Str(words[2])) == p.bottom && CssParser.ParseUnit(Str(words[3])) == p.left
  {
    LengthTextWord(p.top, frac);
    LengthTextWord(p.right, frac);
    LengthTextWord(p.bottom, frac);
    LengthTextWord(p.left, frac);
    FourWords(LengthText(p.top, frac), LengthText(p.right, frac), LengthText(p.bottom, frac), LengthText(p.left, frac));
    LengthTextReadsBack(p.top, frac);
    LengthTextReadsBack(p.right, frac);
    LengthTextReadsBack(p.bottom, frac);
    LengthTextReadsBack(p.left, frac);
  }

  /** The font size the text style carries reads back as the parsed one. */
  lemma FontSizeReadsBack(p: PixelStyle, frac: (real, nat) -> string)
    requires p.fontSize.Some? && WholeLength(p.fontSize.value)
    ensures CssParser.ParseUnit(Str(SeparateStyles(p, frac).text.fontSize.value)) == p.fontSize.value
  {
    LengthTextReadsBack(p.fontSize.value, frac);
  }

  /** An opaque colour with whole channels prints with an alpha of 1. */
  lemma OpaqueColorCss(r: int, g: int, b: int, frac: (real, nat) -> string)
    ensures ColorCss(PixelColor(Int(r), Int(g), Int(b), Int(255)), frac) ==
      "rgba(" + IntToString(r) + ", " + IntToString(g) + ", " + IntToString(b) + ", 1)"
  {
    IntegerText(r, frac);
    IntegerText(g, frac);
    IntegerText(b, frac);
    assert Div(Int(255), Int(255)) == Int(1);
    IntegerText(1, frac);
    assert NatToRadix(1, 10) == "1";
  }

  /** The padding `pixelizeCSS` puts on the container, split at its spaces,
      reads back as the four sides the parser found. */
  lemma PixelizedPaddingReadsBack(css: string, o: BackgroundRenderer.RenderOptions, host: Host)
    requires CssParser.ParsedStyle(CssParser.Rules(css)).padding.Some?
    requires var sides := CssParser.ParsedStyle(CssParser.Rules(css)).padding.value;
      WholeLength(sides.top) && WholeLength(sides.right) && WholeLength(sides.bottom) && WholeLength(sides.left)
    ensures var p := CssParser.ParsedStyle(CssParser.Rules(css));
      var pad := PixelizeCSS(css, o, host).containerStyle.padding;
      pad.Text? && var words := SplitSpaces(pad.s);
      |words| == 4 &&
      CssParser.ParseUnit(Str(words[0])) == p.padding.value.top &&
      CssParser.ParseUnit(Str(words[1])) == p.padding.value.right &&
      CssParser.ParseUnit(Str(words[2])) == p.padding.value.bottom &&
      CssParser.ParseUnit(Str(words[3])) == p.padding.value.left
  {
    PaddingTextReadsBack(CssParser.ParsedStyle(CssParser.Rules(css)).padding.value, host.frac);
  }

  /** The background depends on the background properties alone: two
      styles that agree on them render the same image, whatever their text
      properties. */
  lemma TextDoesNotReachBackground(p: PixelStyle, q: PixelStyle, padding: StyleValue,
                                   o: BackgroundRenderer.RenderOptions, host: Host)
    requires p.backgroundColor == q.backgroundColor && p.backgroundImage == q.backgroundImage
    requires p.border == q.border && p.borderRadius == q.borderRadius
    ensures Pixelized(p, padding, o, host).backgroundImage == Pixelized(q, padding, o, host).backgroundImage
  {
  }

  /** An empty style sheet gives a container with no padding, aligned to the
      start, and a text style with nothing set. */
  lemma EmptyPixelized(o: BackgroundRenderer.RenderOptions, host: Host)
    ensures var r := PixelizeCSS("", o, host);
      r.containerStyle.padding == Undefined && r.containerStyle.justifyContent == "flex-start" &&
      r.textStyle == TextStyle(None, None, None, None, None)
  {
    CssParser.EmptyCss(CssParser.Standard);
  }
}
