/** The canvas helpers of the core package: the fill colour read from a
    style map, a linear gradient drawn from `linear-gradient(...)` colour
    stops, and a solid rectangular border. A style map is keyed by CSS
    property names as written (`background-color`, `border-width`). */
module CoreCanvas {
  import opened Js
  import opened Text
  import opened NumText
  import opened Canvas2D
  import opened Patterns
  import opened Wrappers

  type CssStyleMap = map<string, string>

  /** `styles[key] || fallback`: a missing or empty value gives the fallback. */
  function Get(m: CssStyleMap, key: string, fallback: string): string {
    if key in m && m[key] != "" then m[key] else fallback
  }

  predicate IsHexDigit(c: char) { IsRadixDigit(c, 16) }

  /** A colour the `#[0-9a-fA-F]{3,6}` alternative can give: `#` and three to
      six hexadecimal digits. */
  predicate IsHexColor(c: string) {
    4 <= |c| <= 7 && c[0] == '#' && forall i :: 1 <= i < |c| ==> IsHexDigit(c[i])
  }

  /** Length of the `#[0-9a-fA-F]{3,6}` match at the start of `s` (greedy, at
      most six digits); 0 when there is none. */
  function HexColorLength(s: string): (n: nat)
    ensures n == 0 || (n <= |s| && IsHexColor(s[..(n)]))
  {
    if s == [] || s[0] != '#' then 0
    else
      var run := SpanRadix(s[1..], 16);
      if run < 3 then 0
      else
        var n := 1 + (if run > 6 then 6 else run);
        assert forall i :: 1 <= i < n ==> s[..n][i] == s[1..][..run][i - 1];
        n
  }

  /** Length of the `<head>\([^)]+\)` match at the start of `s`; 0 when there
      is none. */
  function CallColorLength(s: string, head: string): (n: nat)
    ensures n == 0 || (|head| + 3 <= n <= |s| && s[n - 1] == ')')
  {
    if StartsWith(s, head + "(") && GroupAfter(s[|head| + 1..], NoClose).Some? then
      var g := GroupAfter(s[|head| + 1..], NoClose).value;
      assert s[|head| + 1..][|g|] == (g + ")")[|g|];
      |head| + 1 + |g| + 1
    else 0
  }

  /** Length of the colour alternation
      `#[0-9a-fA-F]{3,6}|rgb\([^)]+\)|rgba\([^)]+\)` matched at the start of
      `s`, the alternatives tried in order; 0 when none matches. A hexadecimal
      match is a hex colour; any other ends with `)`. */
  function ColorLength(s: string): (n: nat)
    ensures n <= |s|
    ensures n > 0 && s[0] == '#' ==> IsHexColor(s[..(n)])
    ensures n > 0 && s[0] != '#' ==> s[n - 1] == ')'
  {
    var hex := HexColorLength(s);
    if hex > 0 then hex
    else
      var rgb := CallColorLength(s, "rgb");
      if rgb > 0 then rgb else CallColorLength(s, "rgba")
  }

  /** `s.match(colour)[1]` from position `p` on: the leftmost colour. */
  function FirstColorFrom(s: string, p: nat): (c: Option<string>)
    requires p <= |s|
    ensures c.Some? ==> c.value != []
    decreases |s| - p
  {
    var n := ColorLength(s[p..]);
    if n > 0 then Some(s[p..][..n])
    else if p == |s| then None
    else FirstColorFrom(s, p + 1)
  }

  /** `extractColorFromCSS`: a non-empty `background-color` wins; otherwise
      the first colour written in a non-empty `background`; otherwise white.
      The colour found is never empty. */
  function ExtractColorFromCSS(m: CssStyleMap): (c: string)
    ensures c != []
    ensures "background-color" in m && m["background-color"] != "" ==> c == m["background-color"]
    ensures Get(m, "background-color", "") == "" && Get(m, "background", "") == "" ==> c == "#ffffff"
  {
    if Get(m, "background-color", "") != "" then m["background-color"]
    else if Get(m, "background", "") != "" then
      var found := FirstColorFrom(m["background"], 0);
      if found.Some? then found.value else "#ffffff"
    else "#ffffff"
  }

  /** A background starting with a hex colour (its digit run ended) gives
      that colour when no `background-color` is set. */
  lemma LeadingHexColor(m: CssStyleMap, color: string, rest: string)
    requires Get(m, "background-color", "") == ""
    requires "background" in m && m["background"] == color + rest
    requires IsHexColor(color)
    requires rest == [] || !IsHexDigit(rest[0])
    ensures ExtractColorFromCSS(m) == color
  {
    var s := color + rest;
    assert s[0..] == s;
    HexRun(color, rest);
    assert s[..|color|] == color;
  }

  /** The digit run after the `#` of a hex colour stops where the colour ends. */
  lemma HexRun(color: string, rest: string)
    requires IsHexColor(color)
    requires rest == [] || !IsHexDigit(rest[0])
    ensures HexColorLength(color + rest) == |color|
  {
    var s := color + rest;
    var d := color[1..];
    assert s[1..] == d + rest;
    SpanHexConcat(d, rest);
  }

  lemma {:induction false} SpanHexConcat(d: string, u: string)
    requires forall i :: 0 <= i < |d| ==> IsHexDigit(d[i])
    requires u == [] || !IsHexDigit(u[0])
    ensures SpanRadix(d + u, 16) == |d|
  {
    if d == [] {
      assert d + u == u;
    } else {
      assert (d + u)[1..] == d[1..] + u;
      SpanHexConcat(d[1..], u);
    }
  }

  /** A background with no `#` and no `rgb` anywhere names no colour: the
      fill falls back to white. */
  lemma NoColorWritten(m: CssStyleMap)
    requires Get(m, "background-color", "") == ""
    requires "background" in m
    requires forall q :: 0 <= q <= |m["background"]| ==>
      !StartsWith(m["background"][q..], "#") && !StartsWith(m["background"][q..], "rgb")
    ensures ExtractColorFromCSS(m) == "#ffffff"
  {
    NoColorFrom(m["background"], 0);
  }

  lemma {:induction false} NoColorFrom(s: string, p: nat)
    requires p <= |s|
    requires forall q :: p <= q <= |s| ==> !StartsWith(s[q..], "#") && !StartsWith(s[q..], "rgb")
    ensures FirstColorFrom(s, p) == None
    decreases |s| - p
  {
    var t := s[p..];
    assert !StartsWith(t, "#") && !StartsWith(t, "rgb");
    PrefixOfPrefix(t, "rgb", "(");
    PrefixOfPrefix(t, "rgb", "a(");
    HeadStarts(t, '#');
    if p < |s| { NoColorFrom(s, p + 1); }
  }

  /** A text starting with `a + b` starts with `a`. */
  lemma PrefixOfPrefix(t: string, a: string, b: string)
    ensures StartsWith(t, a + b) ==> StartsWith(t, a)
  {
    if StartsWith(t, a + b) {
      assert t[..|a|] == (a + b)[..|a|];
    }
  }

  lemma HeadStarts(t: string, c: char)
    ensures t != [] && t[0] == c ==> StartsWith(t, [c])
  {
    if t != [] && t[0] == c {
      assert t[..1] == [c];
    }
  }

  /** One match of `(colour)\s+(\d+%?)`: the colour group, the spaces after
      it and the position group; the matched text is their concatenation. */
  datatype StopMatch = StopMatch(color: string, gap: string, position: string)

  function MatchText(m: StopMatch): string { m.color + m.gap + m.position }

  /** Each group is non-empty, the gap is all spaces and the position has none. */
  predicate WellFormedMatch(m: StopMatch) {
    m.color != [] && m.gap != [] && AllSpace(m.gap) && m.position != [] && NoSpace(m.position)
  }

  /** The stop match at the start of `s`, if any. Backtracking cannot find
      another: a shorter hex run is followed by a hex digit, not a space; the
      `[^)]+` group must be followed by `)`; and the three alternatives differ
      in their first four characters. */
  function StopAt(s: string): (r: Option<StopMatch>)
    ensures r.Some? ==> |MatchText(r.value)| <= |s| && WellFormedMatch(r.value)
    ensures r.Some? && s[0] == '#' ==> IsHexColor(r.value.color)
    ensures r.Some? && s[0] != '#' ==> s[|r.value.color| - 1] == ')'
  {
    var c := ColorLength(s);
    var u := s[c..];
    var sp := SpanSpace(u);
    var v := u[sp..];
    var d := SpanDigits(v);
    if c == 0 || sp == 0 || d == 0 then None
    else
      var pct := d < |v| && v[d] == '%';
      var m := StopMatch(s[..c], u[..sp], v[..d] + (if pct then "%" else ""));
      StopParts(s, c, sp, d, pct);
      Some(m)
  }

  /** A stop match is the text at the start of `s`. */
  lemma StopIsPrefix(s: string)
    ensures StopAt(s).Some? ==> StartsWith(s, MatchText(StopAt(s).value))
  {
    var c := ColorLength(s);
    var u := s[c..];
    var sp := SpanSpace(u);
    var v := u[sp..];
    var d := SpanDigits(v);
    if c > 0 && sp > 0 && d > 0 {
      StopParts(s, c, sp, d, d < |v| && v[d] == '%');
    }
  }

  /** The groups found by `StopAt`, from the lengths of the colour, the
      spaces and the digits, form a well-formed stop at the start of `s`. */
  lemma StopParts(s: string, c: nat, sp: nat, d: nat, pct: bool)
    requires 0 < c && c + sp + d <= |s|
    requires 0 < sp && AllSpace(s[c..][..sp])
    requires 0 < d && AllDigits(s[c..][sp..][..d])
    requires pct ==> c + sp + d < |s| && s[c..][sp..][d] == '%'
    ensures var m := StopMatch(s[..c], s[c..][..sp], s[c..][sp..][..d] + (if pct then "%" else ""));
      WellFormedMatch(m) && StartsWith(s, MatchText(m))
  {
    var digits := s[c..][sp..][..d];
    var position := digits + (if pct then "%" else "");
    assert NoSpace(position) by {
      forall i | 0 <= i < |position| ensures !IsSpace(position[i]) {
        if i < d { assert IsDigit(digits[i]); }
      }
    }
    var t := s[..c] + s[c..][..sp] + position;
    var e := c + sp + d + (if pct then 1 else 0);
    assert t == s[..e];
  }

  /** `text.match(stopPattern /g)`: every non-overlapping stop match from
      position `p` on, left to right. */
  function StopsFrom(s: string, p: nat): seq<StopMatch>
    requires p <= |s|
    decreases |s| - p
  {
    if p == |s| then []
    else
      var m := StopAt(s[p..]);
      if m.Some? then [m.value] + StopsFrom(s, p + |MatchText(m.value)|)
      else StopsFrom(s, p + 1)
  }

  /** `stop.split(/\s+/)` on a stop whose colour holds no space gives back
      the two groups, colour and position. */
  lemma SplitStop(m: StopMatch)
    requires WellFormedMatch(m) && NoSpace(m.color)
    ensures SplitSpaces(MatchText(m)) == [m.color, m.position]
  {
    var s := MatchText(m);
    ConcatAssoc(m.color, m.gap, m.position);
    SpanNonSpaceConcat(m.color, m.gap + m.position);
    var k := |m.color|;
    assert s[k..] == m.gap + m.position;
    SpanSpaceConcat(m.gap, m.position);
    assert s[k + |m.gap|..] == m.position;
    SpanNonSpaceConcat(m.position, []);
    assert m.position + [] == m.position;
  }

  lemma HexColorNoSpace(c: string)
    requires IsHexColor(c)
    ensures NoSpace(c)
  {
    forall i | 0 <= i < |c| ensures !IsSpace(c[i]) {
      if i > 0 { assert IsHexDigit(c[i]); }
    }
  }

  /** Inside the group of `linear-gradient\(([^)]+)\)` no `)` occurs, so
      the `rgb(...)` and `rgba(...)` alternatives never match there: a stop
      found in such a text has a hex colour, and splitting the stop's text on
      spaces gives back its colour and position groups. */
  lemma OnlyHexStops(t: string)
    requires ')' !in t
    ensures StopAt(t).Some? ==>
      IsHexColor(StopAt(t).value.color) &&
      SplitSpaces(MatchText(StopAt(t).value)) == [StopAt(t).value.color, StopAt(t).value.position]
  {
    var m := StopAt(t);
    if m.Some? {
      assert t[|m.value.color| - 1] in t;
      HexColorNoSpace(m.value.color);
      SplitStop(m.value);
    }
  }

  /** `position.includes('%') ? parseInt(position) / 100 : index / (count - 1)`. */
  function StopPosition(position: string, index: nat, count: nat): Num {
    if '%' in position then Div(ParseInt(position), Int(100))
    else Div(Int(index), Sub(Int(count), Int(1)))
  }

  /** The colour stops added for the matches, in order. */
  function GradientStops(stops: seq<StopMatch>): (r: seq<ColorStop>)
    ensures |r| == |stops|
  {
    seq(|stops|, k requires 0 <= k < |stops| => StopFor(stops[k], k, |stops|))
  }

  /** The colour stop added for the match at `index` of `count`. */
  function StopFor(m: StopMatch, index: nat, count: nat): ColorStop {
    ColorStop(StopPosition(m.position, index, count), CssText(m.color))
  }

  /** `styles.background || styles['background-image']`. */
  function GradientSource(m: CssStyleMap): string {
    Get(m, "background", Get(m, "background-image", ""))
  }

  /** The stop matches of the first `linear-gradient(...)` in the
      background, or `None` when the guards of `drawGradient` stop it. */
  function GradientMatches(m: CssStyleMap): Option<seq<StopMatch>> {
    var background := GradientSource(m);
    if background == "" || !Contains(background, "gradient") then None
    else
      var params := FindGroup(background, "linear-gradient", NoClose);
      if params.None? then None
      else Some(StopsFrom(params.value, 0))
  }

  /** The calls `drawGradient` makes: a gradient from the top-left corner to
      `(width * unitPixel, height * unitPixel)` whatever direction is
      written, filling that rectangle; nothing with fewer than two stops. */
  function GradientCommands(m: CssStyleMap, width: Num, height: Num, unitPixel: Num): seq<DrawCmd>
  {
    var matches := GradientMatches(m);
    if matches.None? || |matches.value| < 2 then []
    else
      var w, h := Mul(width, unitPixel), Mul(height, unitPixel);
      [SetFillStyle(LinearGradient(Int(0), Int(0), w, h, GradientStops(matches.value))),
       FillRect(Int(0), Int(0), w, h)]
  }

  /** Nothing is drawn unless the background mentions `gradient`, holds a
      `linear-gradient(` group and at least two stops match in it; then a
      linear gradient from the top-left corner to `(width, height)` scaled by
      the pixel size, with one colour stop per match, fills that rectangle. */
  lemma GradientCommandsShape(m: CssStyleMap, width: Num, height: Num, unitPixel: Num)
    ensures var cmds := GradientCommands(m, width, height, unitPixel);
      (cmds == [] || |cmds| == 2) &&
      (cmds != [] <==> GradientMatches(m).Some? && |GradientMatches(m).value| >= 2) &&
      (cmds != [] ==>
        cmds[0].SetFillStyle? && cmds[0].paint.LinearGradient? &&
        cmds[0].paint.x0 == Int(0) && cmds[0].paint.y0 == Int(0) &&
        cmds[0].paint.x1 == Mul(width, unitPixel) && cmds[0].paint.y1 == Mul(height, unitPixel) &&
        cmds[0].paint.stops == GradientStops(GradientMatches(m).value) &&
        cmds[1] == FillRect(Int(0), Int(0), Mul(width, unitPixel), Mul(height, unitPixel)))
  {
  }

  /** The `forEach` of `drawGradient`: one colour stop per match, in order. */
  method AddColorStops(stops: seq<StopMatch>) returns (added: seq<ColorStop>)
    ensures added == GradientStops(stops)
  {
    added := [];
    for k := 0 to |stops|
      invariant added == GradientStops(stops)[..k]
    {
      added := added + [StopFor(stops[k], k, |stops|)];
    }
  }

  /** `drawGradient`: the stops are added one by one, then the canvas
      rectangle is filled with the gradient. */
  method DrawGradient(ctx: Context, m: CssStyleMap, width: Num, height: Num, unitPixel: Num)
    modifies ctx
    ensures ctx.width == old(ctx.width) && ctx.height == old(ctx.height)
    ensures ctx.log == old(ctx.log) + GradientCommands(m, width, height, unitPixel)
  {
    var background := GradientSource(m);
    if background == "" || !Contains(background, "gradient") {
      return;
    }
    var params := FindGroup(background, "linear-gradient", NoClose);
    if params.None? {
      return;
    }
    var stops := StopsFrom(params.value, 0);
    if |stops| < 2 {
      return;
    }
    var w, h := Mul(width, unitPixel), Mul(height, unitPixel);
    var added := AddColorStops(stops);
    assert GradientMatches(m) == Some(stops);
    var cmds := [SetFillStyle(LinearGradient(Int(0), Int(0), w, h, added)), FillRect(Int(0), Int(0), w, h)];
    assert GradientCommands(m, width, height, unitPixel) == cmds;
    ctx.Do(cmds[0]);
    ctx.Do(cmds[1]);
    assert ctx.log == old(ctx.log) + cmds;
  }

  /** The stop match at a hex colour followed by spaces and a run of digits,
      with a `%` when one follows the digits. */
  lemma HexStopAt(color: string, gap: string, digits: string, pct: bool, rest: string)
    requires IsHexColor(color)
    requires gap != [] && AllSpace(gap)
    requires digits != [] && AllDigits(digits)
    requires rest == [] || (!IsDigit(rest[0]) && (pct || rest[0] != '%'))
    ensures StopAt(color + (gap + (digits + ((if pct then "%" else "") + rest)))) ==
      Some(StopMatch(color, gap, digits + (if pct then "%" else "")))
  {
    var tail := (if pct then "%" else "") + rest;
    var v := digits + tail;
    var u := gap + v;
    var s := color + u;
    HexStopLengths(color, gap, digits, tail);
    assert s[..|color|] == color && s[|color|..] == u;
    assert u[..|gap|] == gap && u[|gap|..] == v;
    assert v[..|digits|] == digits;
    assert pct <==> |digits| < |v| && v[|digits|] == '%';
  }

  /** The lengths `StopAt` finds in a hex colour, spaces and digits. */
  lemma HexStopLengths(color: string, gap: string, digits: string, tail: string)
    requires IsHexColor(color)
    requires gap != [] && AllSpace(gap)
    requires digits != [] && AllDigits(digits)
    requires tail == [] || !IsDigit(tail[0])
    ensures ColorLength(color + (gap + (digits + tail))) == |color|
    ensures SpanSpace(gap + (digits + tail)) == |gap|
    ensures SpanDigits(digits + tail) == |digits|
  {
    var v := digits + tail;
    var u := gap + v;
    assert u[0] == gap[0];
    HexRun(color, u);
    assert v[0] == digits[0];
    SpanSpaceConcat(gap, v);
    SpanDigitsConcat(digits, tail);
  }

  /** A position written as digits and `%` is that percentage of the
      gradient line. */
  lemma PercentPosition(digits: string, index: nat, count: nat)
    requires digits != [] && AllDigits(digits)
    ensures StopPosition(digits + "%", index, count) == Fin(RadixValue(digits, 10) as real / 100.0)
  {
    var p := digits + "%";
    assert p[|digits|] == '%';
    assert SpanSpace(p) == 0 by { assert !IsSpace(p[0]) by { assert p[0] == digits[0]; } }
    assert TrimStart(p) == p;
    assert SignPrefix(p) == (false, p) by { assert p[0] == digits[0]; }
    IntegerThenText(digits, "%");
  }

  /** Stops written without `%` are spread evenly: with at least two of
      them, the first sits at 0 and the last at 1. */
  lemma EvenStops(stops: seq<StopMatch>)
    requires |stops| >= 2
    requires forall k :: 0 <= k < |stops| ==> '%' !in stops[k].position
    ensures GradientStops(stops)[0].offset == Fin(0.0)
    ensures GradientStops(stops)[|stops| - 1].offset == Fin(1.0)
  {
    var n := |stops|;
    assert Sub(Int(n), Int(1)) == Fin((n - 1) as real);
    assert (n - 1) as real / (n - 1) as real == 1.0;
  }

  /** `parseInt(styles['border-width'] || styles.border || '0')`. */
  function BorderWidth(m: CssStyleMap): Num {
    ParseInt(Get(m, "border-width", Get(m, "border", "0")))
  }

  /** The calls `drawBorder` makes. A width that is not greater than zero
      draws nothing, but a width that does not parse (NaN) is not `<= 0` and
      the border state is still set; only the `solid` style (the default)
      strokes the rectangle inset by half the line. */
  function BorderCommands(m: CssStyleMap, width: Num, height: Num, unitPixel: Num): seq<DrawCmd> {
    var bw := BorderWidth(m);
    if LessEq(bw, Int(0)) then []
    else
      var line := Mul(bw, unitPixel);
      [SetStrokeStyle(Solid(CssText(Get(m, "border-color", "#000000")))), SetLineWidth(line)] +
      (if Get(m, "border-style", "solid") == "solid" then
         [StrokeRect(Div(line, Int(2)), Div(line, Int(2)),
                     Mul(Sub(width, bw), unitPixel), Mul(Sub(height, bw), unitPixel))]
       else [])
  }

  /** Nothing is drawn exactly when the parsed width is `<= 0`; otherwise the
      stroke colour (black by default) and a line width of `borderWidth *
      unitPixel` are set, and a rectangle is stroked exactly when the style is
      `solid`. */
  lemma BorderCommandsShape(m: CssStyleMap, width: Num, height: Num, unitPixel: Num)
    ensures var cmds := BorderCommands(m, width, height, unitPixel);
      (cmds == [] <==> LessEq(BorderWidth(m), Int(0))) &&
      (cmds != [] ==>
        (|cmds| == 3 <==> Get(m, "border-style", "solid") == "solid") &&
        2 <= |cmds| <= 3 &&
        cmds[0] == SetStrokeStyle(Solid(CssText(Get(m, "border-color", "#000000")))) &&
        cmds[1] == SetLineWidth(Mul(BorderWidth(m), unitPixel)))
  {
  }

  /** `drawBorder`. */
  method DrawBorder(ctx: Context, m: CssStyleMap, width: Num, height: Num, unitPixel: Num)
    modifies ctx
    ensures ctx.width == old(ctx.width) && ctx.height == old(ctx.height)
    ensures ctx.log == old(ctx.log) + BorderCommands(m, width, height, unitPixel)
  {
    var borderWidth := BorderWidth(m);
    var borderColor := Get(m, "border-color", "#000000");
    var borderStyle := Get(m, "border-style", "solid");
    if LessEq(borderWidth, Int(0)) {
      return;
    }
    var line := Mul(borderWidth, unitPixel);
    var stroke := StrokeRect(Div(line, Int(2)), Div(line, Int(2)),
                             Mul(Sub(width, borderWidth), unitPixel), Mul(Sub(height, borderWidth), unitPixel));
    ghost var start := ctx.log;
    ghost var setup := [SetStrokeStyle(Solid(CssText(borderColor))), SetLineWidth(line)];
    assert BorderCommands(m, width, height, unitPixel) ==
      setup + (if borderStyle == "solid" then [stroke] else []);
    ctx.Do(SetStrokeStyle(Solid(CssText(borderColor))));
    ctx.Do(SetLineWidth(line));
    assert ctx.log == start + setup;
    if borderStyle == "solid" {
      ctx.Do(stroke);
      AppendAssociative(start, setup, [stroke]);
    } else {
      assert setup + [] == setup;
    }
  }

  /** Without `border-width` and `border` the width is `parseInt('0')` and
      no border is drawn. */
  lemma NoBorderKeys(m: CssStyleMap, width: Num, height: Num, unitPixel: Num)
    requires "border-width" !in m && "border" !in m
    ensures BorderCommands(m, width, height, unitPixel) == []
  {
    assert SpanSpace("0") == 0;
    assert TrimStart("0") == "0";
    assert SignPrefix("0") == (false, "0");
    IntegerThenText("0", "");
    assert "0" + "" == "0";
    assert RadixValue("0", 10) == 0;
  }

  /** A `border` shorthand starting with a positive width in digits, with no
      `border-width`, `border-color` or `border-style`, strokes a black
      rectangle inset by half the line width. */
  lemma ShorthandWidth(m: CssStyleMap, digits: string, rest: string, width: Num, height: Num, unitPixel: Num)
    requires "border-width" !in m && "border-color" !in m && "border-style" !in m
    requires "border" in m && m["border"] == digits + rest
    requires digits != [] && AllDigits(digits) && RadixValue(digits, 10) > 0
    requires rest == [] || (!IsDigit(rest[0]) && rest[0] != 'x' && rest[0] != 'X')
    ensures BorderWidth(m) == Int(RadixValue(digits, 10))
    ensures var bw := Int(RadixValue(digits, 10));
      var line := Mul(bw, unitPixel);
      BorderCommands(m, width, height, unitPixel) ==
        [SetStrokeStyle(Solid(CssText("#000000"))), SetLineWidth(line),
         StrokeRect(Div(line, Int(2)), Div(line, Int(2)),
                    Mul(Sub(width, bw), unitPixel), Mul(Sub(height, bw), unitPixel))]
  {
    var s := digits + rest;
    assert s[0] == digits[0];
    assert SpanSpace(s) == 0;
    assert TrimStart(s) == s;
    assert SignPrefix(s) == (false, s);
    IntegerThenText(digits, rest);
  }

  /** A width that does not parse, such as `thin`, still sets the stroke
      style and a NaN line width. */
  lemma UnparsedWidthStillSetsStroke(m: CssStyleMap, width: Num, height: Num, unitPixel: Num)
    requires "border-width" in m && m["border-width"] == "thin"
    ensures var cmds := BorderCommands(m, width, height, unitPixel);
      |cmds| >= 2 && cmds[1] == SetLineWidth(NaN)
  {
    var s := "thin";
    assert SpanSpace(s) == 0;
    assert TrimStart(s) == s;
    assert SignPrefix(s) == (false, s);
    assert !HasHexPrefix(s) by { assert s[..2] != "0x" && s[..2] != "0X"; }
    assert !IsRadixDigit(s[0], 10);
    assert SpanRadix(s, 10) == 0;
  }
}
