/** `pixelate.ts`: a CSS declaration list drawn onto a small canvas (a
    background fill, a linear gradient and a border), encoded as an image, and
    the style object that shows that image stretched over the element; the
    same style merged over the parsed declarations; and a style object
    written back as declaration text. */
module Pixelate {
  import opened Js
  import opened Wrappers
  import opened Text
  import opened Canvas2D
  import opened PixelTypes
  import opened CssParser
  import opened CoreCanvas
  import opened StyleObjects
  import BackgroundRenderer
  import CanvasUtils

  /** The options of `pixelateCSS`, each of which may be left out. */
  datatype PixelOptions = PixelOptions(unitPixel: Option<Num>, quality: Option<string>, smooth: Option<bool>)

  /** The options with their defaults: 4 pixels per block, `medium`
      smoothing quality, no smoothing. */
  datatype Settings = Settings(unitPixel: Num, quality: string, smooth: bool)

  function SettingsOf(options: PixelOptions): Settings {
    Settings(options.unitPixel.GetOr(Int(4)), options.quality.GetOr("medium"), options.smooth.GetOr(false))
  }

  /** The style object `pixelateCSS` returns. */
  datatype PixelatedStyle = PixelatedStyle(
    backgroundImage: string,
    backgroundSize: string,
    imageRendering: string,
    position: string,
    zIndex: string,
    pointerEvents: string)

  // ----- What the canvas helpers are handed -----

  /** The declarations of a rule list as the canvas helpers read them, keyed
      by their own (kebab-case) property names; a later declaration of a
      property replaces an earlier one, and a rule with an empty property or
      value is skipped, as `parseCSS` skips it. */
  function DeclaredMap(rules: seq<string>): CssStyleMap {
    if rules == [] then map[]
    else
      var rule := rules[|rules| - 1];
      var m := DeclaredMap(rules[..|rules| - 1]);
      if Property(rule) != "" && Value(rule) != "" then m[Property(rule) := Value(rule)] else m
  }

  /** A parsed style read by the helpers' kebab-case keys. Of the names the
      helpers look up, only `border` is also a property of a parsed style;
      it would hold an object, whose text is `[object Object]`. */
  function ParsedStyleAsMap(style: PixelStyle): CssStyleMap {
    if style.border.Some? then map["border" := "[object Object]"] else map[]
  }

  // ----- The canvas -----

  /** The calls on the small canvas: smoothing set, the background colour
      `fill` filled over the whole canvas, then the gradient and the border. */
  function CanvasCommands(s: Settings, fill: string, pixelWidth: Num, pixelHeight: Num,
                          gradient: seq<DrawCmd>, border: seq<DrawCmd>): seq<DrawCmd> {
    [SetSmoothing(s.smooth), SetSmoothingQuality(s.quality),
     SetFillStyle(Solid(CssText(fill))), FillRect(Int(0), Int(0), pixelWidth, pixelHeight)] +
    gradient + border
  }

  /** The small canvas `pixelateCSS` draws for a style map: the background
      colour, gradient and border of the style map, the last two drawn from
      the full size. */
  function PixelatedCanvas(styles: CssStyleMap, width: Num, height: Num, s: Settings): ImageSource {
    var pixelWidth := BackgroundRenderer.LowResSize(width, s.unitPixel);
    var pixelHeight := BackgroundRenderer.LowResSize(height, s.unitPixel);
    CanvasImage(CanvasDim(pixelWidth), CanvasDim(pixelHeight),
      CanvasCommands(s, ExtractColorFromCSS(styles), pixelWidth, pixelHeight,
                     GradientCommands(styles, width, height, s.unitPixel),
                     BorderCommands(styles, width, height, s.unitPixel)))
  }

  /** The first four calls do not depend on the gradient or the border. */
  lemma CanvasCommandsHead(s: Settings, fill: string, pixelWidth: Num, pixelHeight: Num,
                           gradient: seq<DrawCmd>, border: seq<DrawCmd>)
    ensures var cmds := CanvasCommands(s, fill, pixelWidth, pixelHeight, gradient, border);
      |cmds| == 4 + |gradient| + |border| &&
      cmds[0] == SetSmoothing(s.smooth) && cmds[1] == SetSmoothingQuality(s.quality) &&
      cmds[2] == SetFillStyle(Solid(CssText(fill))) && cmds[3] == FillRect(Int(0), Int(0), pixelWidth, pixelHeight)
  {
  }

  /** The style that shows an encoded canvas. */
  function StyleOfImage(dataUrl: string, smooth: bool): PixelatedStyle {
    PixelatedStyle("url(" + dataUrl + ")", "100% 100%", if smooth then "auto" else "pixelated",
                   "relative", "1", "none")
  }

  /** The result of `pixelateCSS` when the canvas has a 2D context. The
      canvas helpers are handed the declarations of `css` (see `DeclaredMap`). */
  function PixelatedResult(css: string, width: Option<Num>, height: Option<Num>, options: PixelOptions,
                           toDataUrl: ImageSource -> string): PixelatedStyle
  {
    var s := SettingsOf(options);
    var canvas := PixelatedCanvas(DeclaredMap(Rules(css)), width.GetOr(Int(100)), height.GetOr(Int(100)), s);
    StyleOfImage(toDataUrl(canvas), s.smooth)
  }

  /** `pixelateCSS(css, width, height, options)`: width and height default to
      100. The PNG encoding of the canvas is `toDataUrl`; whether the new
      canvas yields a 2D context is `hasContext`, and without one the source
      throws (`Err`). The image is stretched to the element's size, rendered
      `auto` exactly when smoothing is on and `pixelated` otherwise, and the
      element is positioned relatively, above its siblings, with mouse events
      passing through. */
  method PixelateCSS(css: string, width: Option<Num>, height: Option<Num>, options: PixelOptions,
                     toDataUrl: ImageSource -> string, hasContext: bool)
    returns (r: Result<PixelatedStyle>)
    ensures r.Ok? <==> hasContext
    ensures r.Ok? ==> r.value == PixelatedResult(css, width, height, options, toDataUrl)
    ensures r.Ok? ==> var smooth := SettingsOf(options).smooth;
      r.value.backgroundSize == "100% 100%" && r.value.position == "relative" &&
      (r.value.imageRendering == "auto" <==> smooth) && (r.value.imageRendering == "pixelated" <==> !smooth)
  {
    var w, h := width.GetOr(Int(100)), height.GetOr(Int(100));
    var s := SettingsOf(options);
    var styles := DeclaredMap(Rules(css));
    var pixelWidth := BackgroundRenderer.LowResSize(w, s.unitPixel);
    var pixelHeight := BackgroundRenderer.LowResSize(h, s.unitPixel);
    var canvas := new Context(300, 150);
    canvas.Resize(CanvasDim(pixelWidth), CanvasDim(pixelHeight));
    if !hasContext {
      return Err("no 2D context for the canvas");
    }
    DrawPixelated(canvas, styles, w, h, s, pixelWidth, pixelHeight);
    assert canvas.Image() == PixelatedCanvas(styles, w, h, s);
    var dataUrl := toDataUrl(canvas.Image());
    return Ok(StyleOfImage(dataUrl, s.smooth));
  }

  /** The drawing steps of `pixelateCSS` on a canvas of
      `pixelWidth` x `pixelHeight`: smoothing, the background colour, the
      gradient and the border. */
  method DrawPixelated(canvas: Context, styles: CssStyleMap, width: Num, height: Num, s: Settings,
                       pixelWidth: Num, pixelHeight: Num)
    modifies canvas
    ensures canvas.width == old(canvas.width) && canvas.height == old(canvas.height)
    ensures canvas.log == old(canvas.log) +
      CanvasCommands(s, ExtractColorFromCSS(styles), pixelWidth, pixelHeight,
                     GradientCommands(styles, width, height, s.unitPixel),
                     BorderCommands(styles, width, height, s.unitPixel))
  {
    ghost var start := canvas.log;
    canvas.Do(SetSmoothing(s.smooth));
    canvas.Do(SetSmoothingQuality(s.quality));
    var backgroundColor := ExtractColorFromCSS(styles);
    canvas.Do(SetFillStyle(Solid(CssText(backgroundColor))));
    canvas.Do(FillRect(Int(0), Int(0), pixelWidth, pixelHeight));
    ghost var head := [SetSmoothing(s.smooth), SetSmoothingQuality(s.quality),
      SetFillStyle(Solid(CssText(backgroundColor))), FillRect(Int(0), Int(0), pixelWidth, pixelHeight)];
    assert canvas.log == start + head;
    ghost var gradient := GradientCommands(styles, width, height, s.unitPixel);
    ghost var border := BorderCommands(styles, width, height, s.unitPixel);
    DrawGradient(canvas, styles, width, height, s.unitPixel);
    AppendAssociative(start, head, gradient);
    DrawBorder(canvas, styles, width, height, s.unitPixel);
    AppendAssociative(start, head + gradient, border);
  }

  /** For a pixel size of at least 1 and sides of at most the largest canvas
      dimension, the canvas is `ceil(width / unitPixel)` by
      `ceil(height / unitPixel)`, and the fill covers all of it. */
  lemma CanvasSize(styles: CssStyleMap, width: real, height: real, s: Settings)
    requires s.unitPixel.Fin? && s.unitPixel.v >= 1.0
    requires 0.0 <= width <= MaxDimension as real && 0.0 <= height <= MaxDimension as real
    ensures var canvas := PixelatedCanvas(styles, Fin(width), Fin(height), s);
      canvas.width == Ceil(width / s.unitPixel.v) && canvas.height == Ceil(height / s.unitPixel.v) &&
      canvas.log[3] == FillRect(Int(0), Int(0), Int(canvas.width), Int(canvas.height))
  {
    CanvasUtils.SmallSide(width, s.unitPixel.v);
    CanvasUtils.SmallSide(height, s.unitPixel.v);
  }

  /** Without options the canvas is not smoothed, at `medium` quality, with
      4-pixel blocks. */
  lemma DefaultSettings(styles: CssStyleMap, width: Num, height: Num)
    ensures var canvas := PixelatedCanvas(styles, width, height, SettingsOf(PixelOptions(None, None, None)));
      canvas.log[0] == SetSmoothing(false) && canvas.log[1] == SetSmoothingQuality("medium") &&
      canvas.width == CanvasDim(BackgroundRenderer.LowResSize(width, Int(4)))
  {
    var s := SettingsOf(PixelOptions(None, None, None));
    assert s == Settings(Int(4), "medium", false);
    CanvasCommandsHead(s, ExtractColorFromCSS(styles),
      BackgroundRenderer.LowResSize(width, s.unitPixel), BackgroundRenderer.LowResSize(height, s.unitPixel),
      GradientCommands(styles, width, height, s.unitPixel), BorderCommands(styles, width, height, s.unitPixel));
  }

  // ----- The parsed style as the helpers see it (as written) -----

  /** The canvas as the source draws it: the helpers are handed the style
      `parseCSS` built. */
  function PixelatedCanvasAsWritten(css: string, width: Num, height: Num, s: Settings): ImageSource {
    PixelatedCanvas(ParsedStyleAsMap(ParsedStyle(Rules(css))), width, height, s)
  }

  /** Whatever the declarations, the canvas as written is a white fill and
      nothing else: no declared colour, gradient or border reaches it. */
  lemma ParsedStyleDrawsOnlyWhite(css: string, width: Num, height: Num, s: Settings)
    ensures var pw, ph := BackgroundRenderer.LowResSize(width, s.unitPixel), BackgroundRenderer.LowResSize(height, s.unitPixel);
      PixelatedCanvasAsWritten(css, width, height, s).log ==
        [SetSmoothing(s.smooth), SetSmoothingQuality(s.quality),
         SetFillStyle(Solid(CssText("#ffffff"))), FillRect(Int(0), Int(0), pw, ph)]
  {
    assert ParsedStyleAsMap(ParsedStyle(Rules(css))) == map[];
    NothingDeclaredDrawsWhite(width, height, s);
  }

  /** An empty style map gives the white fill alone. */
  lemma NothingDeclaredDrawsWhite(width: Num, height: Num, s: Settings)
    ensures var pw, ph := BackgroundRenderer.LowResSize(width, s.unitPixel), BackgroundRenderer.LowResSize(height, s.unitPixel);
      PixelatedCanvas(map[], width, height, s).log ==
        [SetSmoothing(s.smooth), SetSmoothingQuality(s.quality),
         SetFillStyle(Solid(CssText("#ffffff"))), FillRect(Int(0), Int(0), pw, ph)]
  {
    var empty: CssStyleMap := map[];
    assert GradientSource(empty) == "";
    assert GradientCommands(empty, width, height, s.unitPixel) == [];
    NoBorderKeys(empty, width, height, s.unitPixel);
  }

  /** With the declarations handed over, a `background-color` declared last
      with a value is the colour the canvas is filled with. */
  lemma DeclaredColorFills(rules: seq<string>, rule: string, width: Num, height: Num, s: Settings)
    requires Property(rule) == "background-color" && Value(rule) != ""
    ensures PixelatedCanvas(DeclaredMap(rules + [rule]), width, height, s).log[2] ==
      SetFillStyle(Solid(CssText(Value(rule))))
  {
    var m := DeclaredMap(rules + [rule]);
    DeclaredLast(rules, rule);
    assert ExtractColorFromCSS(m) == Value(rule);
    CanvasCommandsHead(s, Value(rule), BackgroundRenderer.LowResSize(width, s.unitPixel),
      BackgroundRenderer.LowResSize(height, s.unitPixel),
      GradientCommands(m, width, height, s.unitPixel), BorderCommands(m, width, height, s.unitPixel));
  }

  /** A rule with a property and a value sets that property. */
  lemma DeclaredLast(rules: seq<string>, rule: string)
    requires Property(rule) != "" && Value(rule) != ""
    ensures DeclaredMap(rules + [rule]) == DeclaredMap(rules)[Property(rule) := Value(rule)]
  {
    assert (rules + [rule])[..|rules|] == rules;
  }

  /** A later declaration list overrides an earlier one key by key: the
      helpers see the declarations of `a; b` as those of `a` updated by
      those of `b`. */
  lemma LaterDeclarationsOverride(a: string, b: string)
    ensures DeclaredMap(Rules(a + ";" + b)) == DeclaredMap(Rules(a)) + DeclaredMap(Rules(b))
  {
    RulesConcat(a, b);
    DeclaredMapConcat(Rules(a), Rules(b));
  }

  lemma {:induction false} DeclaredMapConcat(xs: seq<string>, ys: seq<string>)
    ensures DeclaredMap(xs + ys) == DeclaredMap(xs) + DeclaredMap(ys)
    decreases |ys|
  {
    if ys == [] {
      assert xs + ys == xs;
    } else {
      var init := ys[..|ys| - 1];
      assert (xs + ys)[..|xs + ys| - 1] == xs + init;
      assert (xs + ys)[|xs + ys| - 1] == ys[|ys| - 1];
      DeclaredMapConcat(xs, init);
    }
  }

  // ----- styleObjectToString -----

  /** One entry as declaration text. */
  function EntryText(key: string, value: string): string {
    key + ": " + value
  }

  function EntryTexts(entries: seq<(string, string)>): (r: seq<string>)
  {
    seq(|entries|, i requires 0 <= i < |entries| => EntryText(entries[i].0, entries[i].1))
  }

  /** `styleObjectToString`: the entries of an object, in order, as
      `key: value` joined with `; `; an object without entries gives "". */
  function StyleObjectToString(entries: seq<(string, string)>): (r: string)
    ensures entries == [] <==> r == ""
  {
    Join(EntryTexts(entries), "; ")
  }

  /** Text that survives a round trip through a declaration list: not
      empty, no `;` or `:`, and no space at either end. */
  predicate Plain(t: string) {
    t != [] && ';' !in t && ':' !in t && !IsSpace(t[0]) && !IsSpace(t[|t| - 1])
  }

  /** Parsing the text back gives the entries back: one rule per entry, in
      order, with the entry's key as property and its value as value. */
  lemma StyleTextRoundTrip(entries: seq<(string, string)>)
    requires forall i :: 0 <= i < |entries| ==> Plain(entries[i].0) && Plain(entries[i].1)
    ensures Rules(StyleObjectToString(entries)) == EntryTexts(entries) && forall i :: 0 <= i < |entries| ==>
      Property(Rules(StyleObjectToString(entries))[i]) == entries[i].0 &&
      Value(Rules(StyleObjectToString(entries))[i]) == entries[i].1
  {
    RulesOfJoin(entries);
    forall i | 0 <= i < |entries|
      ensures Property(EntryText(entries[i].0, entries[i].1)) == entries[i].0
      ensures Value(EntryText(entries[i].0, entries[i].1)) == entries[i].1
    {
      EntryParts(entries[i].0, entries[i].1);
    }
  }

  lemma {:induction false} RulesOfJoin(entries: seq<(string, string)>)
    requires forall i :: 0 <= i < |entries| ==> Plain(entries[i].0) && Plain(entries[i].1)
    ensures Rules(StyleObjectToString(entries)) == EntryTexts(entries)
    decreases |entries|
  {
    var texts := EntryTexts(entries);
    if entries == [] {
      EmptyCss(Standard);
    } else {
      var e := texts[0];
      PlainEntry(entries[0].0, entries[0].1);
      if |entries| == 1 {
        SplitNoSeparator(e, ';');
        assert Rules(e) == NonEmpty([Trim(e)]);
        assert NonEmpty([e]) == [e] + NonEmpty([e][1..]);
      } else {
        var rest := entries[1..];
        var tail := StyleObjectToString(rest);
        assert EntryTexts(rest) == texts[1..];
        assert StyleObjectToString(entries) == e + [';'] + (" " + tail);
        SplitAtFirst(e, " " + tail, ';');
        RulesOfJoin(rest);
        SpaceBeforeRules(tail);
        TrimAllConcat([e], Split(" " + tail, ';'));
        NonEmptyConcat([e], TrimAll(Split(" " + tail, ';')));
        assert NonEmpty([e]) == [e] + NonEmpty([e][1..]);
        assert texts == [e] + texts[1..];
      }
    }
  }

  /** The text of an entry of plain key and value: its own trim, and free of `;`. */
  lemma PlainEntry(key: string, value: string)
    requires Plain(key) && Plain(value)
    ensures ';' !in EntryText(key, value) && Trim(EntryText(key, value)) == EntryText(key, value)
    ensures EntryText(key, value) != ""
  {
    var e := EntryText(key, value);
    assert e[0] == key[0] && e[|e| - 1] == value[|value| - 1];
    TrimUnchanged(e);
  }

  /** A space in front of a declaration list changes none of its rules. */
  lemma SpaceBeforeRules(t: string)
    ensures NonEmpty(TrimAll(Split(" " + t, ';'))) == Rules(t)
  {
    var ps := Split(t, ';');
    var first, rest := ps[0], ps[1..];
    SplitAfterSpace(t);
    assert ps == [first] + rest;
    TrimAllConcat([" " + first], rest);
    TrimAllConcat([first], rest);
    SpaceBeforeTrim(first);
    assert TrimAll([" " + first]) == TrimAll([first]);
  }

  /** A space in front of a text joins its first piece. */
  lemma SplitAfterSpace(t: string)
    ensures Split(" " + t, ';') == [" " + Split(t, ';')[0]] + Split(t, ';')[1..]
  {
    assert (" " + t)[1..] == t;
    assert (" " + t)[0] == ' ';
  }

  /** One space in front of a text does not change its trim. */
  lemma SpaceBeforeTrim(t: string)
    ensures Trim(" " + t) == Trim(t)
  {
    var s := " " + t;
    assert s[1..] == t;
    assert SpanSpace(s) == 1 + SpanSpace(t);
    assert TrimStart(s) == TrimStart(t);
  }

  /** The property and value of an entry's text are its key and value. */
  lemma EntryParts(key: string, value: string)
    requires Plain(key) && Plain(value)
    ensures Property(EntryText(key, value)) == key && Value(EntryText(key, value)) == value
  {
    var rest := " " + value;
    assert EntryText(key, value) == key + [':'] + rest;
    SplitAtFirst(key, rest, ':');
    assert ':' !in rest by { assert forall i :: 0 < i < |rest| ==> rest[i] == value[i - 1]; }
    SplitNoSeparator(rest, ':');
    TrimUnchanged(key);
    SpaceBeforeTrim(value);
    TrimUnchanged(value);
  }

  // ----- createPixelatedStyle -----

  /** The pixelated style as an object. */
  function PixelatedObject(p: PixelatedStyle): StyleObject {
    map["backgroundImage" := Text(p.backgroundImage), "backgroundSize" := Text(p.backgroundSize),
        "imageRendering" := Text(p.imageRendering), "position" := Text(p.position),
        "zIndex" := Text(p.zIndex), "pointerEvents" := Text(p.pointerEvents)]
  }

  /** `createPixelatedStyle(css, options)`: the style of a 100 x 100 element
      pixelated, spread over the style `parseCSS` builds from the same text.
      Every pixelated property replaces a parsed one of the same name (a
      parsed `backgroundImage` gradient gives way to the image); every other
      parsed property is kept as parsed. */
  method CreatePixelatedStyle(css: string, options: PixelOptions, toDataUrl: ImageSource -> string, hasContext: bool)
    returns (r: Result<StyleObject>)
    ensures r.Ok? <==> hasContext
    ensures r.Ok? ==>
      var pixelated := PixelatedObject(PixelatedResult(css, Some(Int(100)), Some(Int(100)), options, toDataUrl));
      var parsed := PixelStyleObject(ParsedStyle(Rules(css)));
      r.value.Keys == parsed.Keys + pixelated.Keys &&
      (forall k :: k in pixelated ==> r.value[k] == pixelated[k]) &&
      (forall k :: k in parsed && k !in pixelated ==> r.value[k] == parsed[k])
  {
    var pixelated := PixelateCSS(css, Some(Int(100)), Some(Int(100)), options, toDataUrl, hasContext);
    if pixelated.Err? {
      return Err(pixelated.error);
    }
    var original := ParseCSS(css);
    return Ok(Spread(PixelStyleObject(original), PixelatedObject(pixelated.value)));
  }
}
