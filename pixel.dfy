/** `pixelate`, the first renderer of the hook package: three declarations
    are pulled out of the serialised style text with regular expressions, a
    canvas the size of the element is drawn with the background, the border
    and an optional uniform rounded clip, downsampled and scaled back up, and
    the style is patched to show that picture.  `convertCSSUnitToPx`, which is
    not part of this model, and `toDataURL` are parameters. */
module Pixel {
  import opened Js
  import opened Wrappers
  import opened Text
  import opened NumText
  import opened Canvas2D
  import opened RoundedPath
  import opened Patterns
  import RadiusClip

  /** The element measurements `pixelate` reads. */
  datatype Element = Element(clientWidth: nat, clientHeight: nat)

  /** What the model does not compute itself: `convertCSSUnitToPx` against the
      element, the trigonometry of `Math`, and `canvas.toDataURL()`. */
  datatype Env = Env(toPx: string -> Num, trig: Trig, toDataUrl: ImageSource -> string)

  /** One declaration appended to the style. */
  datatype Declaration = Declaration(property: string, value: string)

  /** The result of `pixelate`: the style it was given, or that style followed
      by the declarations of the patch. */
  datatype Outcome = PrevCss | Patched(declarations: seq<Declaration>)

  /* ---------- the declaration regular expressions ---------- */

  /** Length of the longest prefix of `s` without a semicolon. */
  function SpanNotSemicolon(s: string): (n: nat)
    ensures n <= |s|
    ensures forall i :: 0 <= i < n ==> s[i] != ';'
    ensures n < |s| ==> s[n] == ';'
  {
    if s == [] || s[0] == ';' then 0 else 1 + SpanNotSemicolon(s[1..])
  }

  /** The group of `\s*([^;]+);` matched at the start of `t`, the text right
      after `<name>:`.  When the value is all spaces, `\s*` gives one space
      back so that the group is not empty. */
  function ValueAfterColon(t: string): (g: Option<string>)
    ensures g.Some? ==> g.value != [] && ';' !in g.value
    ensures g.Some? ==> exists k :: (0 <= k <= |t| - |g.value| - 1 &&
                                     AllSpace(t[..k]) && t[k..k + |g.value| + 1] == g.value + ";")
    ensures g.None? <==> SpanNotSemicolon(t) == 0 || SpanNotSemicolon(t) == |t|
  {
    var n := SpanNotSemicolon(t);
    if n == 0 || n == |t| then None
    else
      var k := SpanSpace(t[..n]);
      var start := if k < n then k else n - 1;
      assert t[start..n + 1] == t[start..n] + ";";
      assert t[..start] == t[..n][..start];
      Some(t[start..n])
  }

  /** `/<name>:\s*([^;]+);/.exec(s)?.[1]` for the leftmost match at position
      `p` or later. */
  function FindDeclFrom(s: string, name: string, p: nat): (g: Option<string>)
    requires p <= |s|
    ensures g.Some? ==> exists q :: (p <= q <= |s| && StartsWith(s[q..], name + ":") &&
                                     ValueAfterColon(s[q + |name| + 1..]) == g)
    decreases |s| - p
  {
    if StartsWith(s[p..], name + ":") && ValueAfterColon(s[p + |name| + 1..]).Some? then
      ValueAfterColon(s[p + |name| + 1..])
    else if p == |s| then None
    else FindDeclFrom(s, name, p + 1)
  }

  function FindDecl(s: string, name: string): Option<string> {
    FindDeclFrom(s, name, 0)
  }

  /** Without `<name>:` in the text there is no match. */
  lemma {:induction false} NoDeclaration(s: string, name: string, p: nat)
    requires p <= |s|
    requires forall q :: p <= q <= |s| ==> !StartsWith(s[q..], name + ":")
    ensures FindDeclFrom(s, name, p) == None
    decreases |s| - p
  {
    if p < |s| { NoDeclaration(s, name, p + 1); }
  }

  lemma {:induction false} SpanNotSemicolonConcat(v: string, u: string)
    requires ';' !in v
    requires u == [] || u[0] == ';'
    ensures SpanNotSemicolon(v + u) == |v|
  {
    if v == [] {
      assert v + u == u;
    } else {
      assert (v + u)[1..] == v[1..] + u;
      assert v[0] in v;
      SpanNotSemicolonConcat(v[1..], u);
    }
  }

  /** A declaration written first, `<name>: <value>;`, is read back as its
      value, whatever follows it. */
  lemma FirstDeclaration(name: string, value: string, rest: string)
    requires value != [] && ';' !in value && !IsSpace(value[0])
    ensures FindDecl(name + ": " + value + ";" + rest, name) == Some(value)
  {
    var s := name + ": " + value + ";" + rest;
    var v := " " + value;
    var t := v + (";" + rest);
    assert s[0..] == s;
    assert s[|name| + 1..] == t;
    assert StartsWith(s, name + ":") by { assert s[..|name| + 1] == name + ":"; }
    assert ';' !in v;
    SpanNotSemicolonConcat(v, ";" + rest);
    assert t[..|v|] == " " + value;
    SpanSpaceConcat(" ", value);
    assert t[1..|v|] == value;
  }

  /* ---------- the three values pixelate reads ---------- */

  /** `borderRadius`: the `border-radius` value resolved, or "0" resolved
      when there is none (the group is never empty, so `|| '0'` applies only
      without a match). */
  function BorderRadius(css: string, env: Env): (r: Num)
    ensures FindDecl(css, "border-radius").None? ==> r == env.toPx("0")
  {
    var m := FindDecl(css, "border-radius");
    env.toPx(if m.Some? then m.value else "0")
  }

  /** `getBorderWidth`: 0 without a `border` declaration, otherwise the first
      whitespace-separated token of its value, resolved. */
  function BorderWidth(borderMatch: Option<string>, env: Env): (w: Num)
  {
    if borderMatch.None? then Int(0)
    else
      var parts := SplitSpaces(borderMatch.value);
      env.toPx(parts[0])
  }

  /** The border colour: the last whitespace-separated token of the value. */
  function BorderColor(value: string): (c: string)
  {
    var parts := SplitSpaces(value);
    parts[|parts| - 1]
  }

  /** A `border` value of width, style and colour read back: the first token
      is the width and the last the colour. */
  lemma BorderTokens(width: string, style: string, color: string)
    requires width != [] && NoSpace(width) && style != [] && NoSpace(style)
    requires color != [] && NoSpace(color)
    ensures SplitSpaces(width + " " + style + " " + color)[0] == width
    ensures BorderColor(width + " " + style + " " + color) == color
  {
    ThreeWords(width, style, color);
  }

  lemma ThreeWords(width: string, style: string, color: string)
    requires width != [] && NoSpace(width) && style != [] && NoSpace(style)
    requires color != [] && NoSpace(color)
    ensures SplitSpaces(width + " " + style + " " + color) == [width, style, color]
  {
    var tail := style + " " + color;
    TwoWords(style, color);
    assert tail[0] == style[0];
    SplitWord(width, tail);
    ConcatAssoc(width + " " + style, " ", color);
    ConcatAssoc(width + " ", style, " " + color);
    ConcatAssoc(style, " ", color);
  }

  lemma TwoWords(style: string, color: string)
    requires style != [] && NoSpace(style) && color != [] && NoSpace(color)
    ensures SplitSpaces(style + " " + color) == [style, color]
  {
    SplitOneWord(color);
    SplitWord(style, color);
  }

  lemma SplitOneWord(word: string)
    requires NoSpace(word)
    ensures SplitSpaces(word) == [word]
  {
    SpanNonSpaceConcat(word, []);
    assert word + [] == word;
  }

  /** A word followed by one space splits off as the first piece. */
  lemma SplitWord(word: string, rest: string)
    requires word != [] && NoSpace(word) && rest != [] && !IsSpace(rest[0])
    ensures SplitSpaces(word + " " + rest) == [word] + SplitSpaces(rest)
  {
    var s := word + (" " + rest);
    assert word + " " + rest == s;
    SpanNonSpaceConcat(word, " " + rest);
    assert s[..|word|] == word;
    assert s[|word|..] == " " + rest;
    SpanSpaceConcat(" ", rest);
    assert s[|word| + 1..] == rest;
  }

  /* ---------- drawBackground and the linear gradient ---------- */

  /** The line a linear gradient runs along. */
  datatype Line = Line(x0: Num, y0: Num, x1: Num, y1: Num)

  /** `calculateGradientDirection`: substring tests in order, the first that
      holds wins; without one the gradient runs from the top to the bottom. */
  function GradientDirection(e: Element, direction: string, trig: Trig): (l: Line)
    ensures l.x0 == Int(0) || l.x0 == Int(e.clientWidth)
    ensures (!Contains(direction, "to right") && !Contains(direction, "to left") &&
             !Contains(direction, "to top") && !Contains(direction, "deg")) ==>
      l == Line(Int(0), Int(0), Int(0), Int(e.clientHeight))
  {
    var w, h := Int(e.clientWidth), Int(e.clientHeight);
    if Contains(direction, "to right") then Line(Int(0), Int(0), w, Int(0))
    else if Contains(direction, "to left") then Line(w, Int(0), Int(0), Int(0))
    else if Contains(direction, "to top") then Line(Int(0), Int(0), Int(0), Int(0))
    else if Contains(direction, "deg") then
      var radian := Div(Mul(Sub(ParseInt(direction), Int(90)), Fin(trig.pi)), Int(180));
      Line(Int(0), Int(0), Mul(w, MathCos(trig, radian)), Mul(h, MathSin(trig, radian)))
    else Line(Int(0), Int(0), Int(0), h)
  }

  /** `to right` is checked first, so it wins over any other keyword in the
      same text; `to top` gives a gradient line of length zero. */
  lemma DirectionOrder(e: Element, direction: string, trig: Trig)
    ensures Contains(direction, "to right") ==>
      GradientDirection(e, direction, trig) == Line(Int(0), Int(0), Int(e.clientWidth), Int(0))
    ensures !Contains(direction, "to right") && Contains(direction, "to left") ==>
      GradientDirection(e, direction, trig) == Line(Int(e.clientWidth), Int(0), Int(0), Int(0))
    ensures (!Contains(direction, "to right") && !Contains(direction, "to left") &&
             Contains(direction, "to top")) ==>
      var l := GradientDirection(e, direction, trig); l.x0 == l.x1 && l.y0 == l.y1
  {
  }

  /** The length of a run of digits followed by `%` at the start of `s`. */
  function PercentAt(s: string): (k: nat)
    ensures k > 0 ==> k < |s| && s[k] == '%' && AllDigits(s[..(k)])
  {
    var k := SpanDigits(s);
    if 0 < k < |s| && s[k] == '%' then k else 0
  }

  /** `/(\d+)%/.exec(s)?.[1]`: the digits of the leftmost percentage. */
  function FirstPercent(s: string): (d: Option<string>)
    ensures d.Some? ==> d.value != [] && AllDigits(d.value)
    decreases |s|
  {
    if s == [] then None
    else if PercentAt(s) > 0 then Some(s[..PercentAt(s)])
    else FirstPercent(s[1..])
  }

  /** `s.replace(/\d+%/g, '')`: every percentage removed, scanning from the
      left and resuming after each one removed. */
  function RemovePercents(s: string): (r: string)
    ensures |r| <= |s|
    ensures '%' !in s ==> r == s
    decreases |s|
  {
    if s == [] then []
    else if PercentAt(s) > 0 then RemovePercents(s[PercentAt(s) + 1..])
    else [s[0]] + RemovePercents(s[1..])
  }

  /** One stop of `addColorStops`: an explicit `N%` gives N/100, otherwise the
      stop's index over the last index. */
  function StopOf(part: string, index: nat, count: nat): ColorStop {
    var info := Trim(part);
    var percent := FirstPercent(info);
    var position :=
      if percent.Some? then Div(Int(RadixValue(percent.value, 10)), Int(100))
      else Div(Int(index), Sub(Int(count), Int(1)));
    ColorStop(position, CssText(Trim(RemovePercents(info))))
  }

  /** The stops `addColorStops` adds for the comma-separated parts after the
      direction. */
  function ColorStops(parts: seq<string>): (stops: seq<ColorStop>)
    ensures |stops| == |parts|
  {
    seq(|parts|, i requires 0 <= i < |parts| => StopOf(parts[i], i, |parts|))
  }

  /** `addColorStops`, one stop per part in order. */
  method AddColorStops(parts: seq<string>) returns (stops: seq<ColorStop>)
    ensures stops == ColorStops(parts)
  {
    stops := [];
    for i := 0 to |parts|
      invariant stops == ColorStops(parts)[..i]
    {
      NextStop(parts, i);
      stops := stops + [StopOf(parts[i], i, |parts|)];
    }
    assert ColorStops(parts)[..|parts|] == ColorStops(parts);
  }

  lemma NextStop(parts: seq<string>, i: nat)
    requires i < |parts|
    ensures ColorStops(parts)[..i + 1] == ColorStops(parts)[..i] + [StopOf(parts[i], i, |parts|)]
  {
    Extend(ColorStops(parts), i);
  }

  lemma Extend<T>(xs: seq<T>, i: nat)
    requires i < |xs|
    ensures xs[..i + 1] == xs[..i] + [xs[i]]
  {
  }

  /** When the first and the last part carry no percentage, the stops run
      from 0 at the first to 1 at the last. */
  lemma EvenStops(parts: seq<string>)
    requires |parts| >= 2
    requires '%' !in parts[0] && '%' !in parts[|parts| - 1]
    ensures ColorStops(parts)[0].offset == Int(0)
    ensures ColorStops(parts)[|parts| - 1].offset == Int(1)
  {
    FirstStop(parts);
    LastStop(parts);
  }

  lemma FirstStop(parts: seq<string>)
    requires |parts| >= 2 && '%' !in parts[0]
    ensures ColorStops(parts)[0].offset == Int(0)
  {
    IndexStopAt(parts, 0);
    SelfQuotient((|parts| - 1) as real);
  }

  lemma LastStop(parts: seq<string>)
    requires |parts| >= 2 && '%' !in parts[|parts| - 1]
    ensures ColorStops(parts)[|parts| - 1].offset == Int(1)
  {
    IndexStopAt(parts, |parts| - 1);
    SelfQuotient((|parts| - 1) as real);
  }

  /** A part without a percentage is placed at its index over the last
      index. */
  lemma IndexStopAt(parts: seq<string>, i: nat)
    requires |parts| >= 2 && i < |parts| && '%' !in parts[i]
    ensures ColorStops(parts)[i].offset == Fin(i as real / (|parts| - 1) as real)
  {
    assert ColorStops(parts)[i] == StopOf(parts[i], i, |parts|);
    IndexStop(parts[i], i, |parts|);
  }

  /** The same for one part, through `StopOf`. */
  lemma IndexStop(part: string, index: nat, count: nat)
    requires '%' !in part && count >= 2
    ensures StopOf(part, index, count).offset == Fin(index as real / (count - 1) as real)
  {
    NoPercentStop(part);
    assert Sub(Int(count), Int(1)) == Int(count - 1);
  }

  lemma NoPercentStop(part: string)
    requires '%' !in part
    ensures FirstPercent(Trim(part)) == None
  {
    var t := Trim(part);
    assert '%' !in t by {
      forall i | 0 <= i < |t| ensures t[i] != '%' { TrimInside(part, i); }
    }
    NoPercentNone(t);
  }

  lemma TrimInside(s: string, i: nat)
    requires i < |Trim(s)|
    ensures Trim(s)[i] in s
  {
    var a := SpanSpace(s);
    var t := s[a..];
    assert Trim(s) == t[..|t| - SpanSpaceEnd(t)];
    assert Trim(s)[i] == s[a + i];
  }

  lemma {:induction false} NoPercentNone(s: string)
    requires '%' !in s
    ensures FirstPercent(s) == None
    decreases |s|
  {
    if s != [] {
      assert PercentAt(s) == 0 by {
        var k := SpanDigits(s);
        assert k < |s| ==> s[k] in s;
      }
      assert forall c :: c in s[1..] ==> c in s;
      NoPercentNone(s[1..]);
    }
  }

  /** A stop written `<colour> N%` is placed at N/100 and keeps the colour
      alone. */
  lemma PercentStop(color: string, digits: string, index: nat, count: nat)
    requires digits != [] && AllDigits(digits)
    requires forall i :: 0 <= i < |color| ==> !IsDigit(color[i])
    requires color != [] && !IsSpace(color[0]) && !IsSpace(color[|color| - 1])
    ensures StopOf(color + " " + digits + "%", index, count) ==
      ColorStop(Div(Int(RadixValue(digits, 10)), Int(100)), CssText(color))
  {
    var tail := digits + "%";
    var info := color + " " + tail;
    assert info == (color + " ") + tail;
    assert info[|info| - 1] == '%';
    TrimUnchanged(info);
    assert forall i :: 0 <= i < |color + " "| ==> !IsDigit((color + " ")[i]);
    SkipNoDigits(color + " ", tail);
    KeepNoDigits(color + " ", tail);
    DigitsPercent(digits);
    assert RemovePercents(info) == color + " ";
    TrimEndSpace(color);
    assert FirstPercent(Trim(info)) == Some(digits);
    assert Trim(RemovePercents(Trim(info))) == color;
    assert color + " " + digits + "%" == info;
  }

  /** One space after a text without spaces at either end trims away. */
  lemma TrimEndSpace(t: string)
    requires t != [] && !IsSpace(t[0]) && !IsSpace(t[|t| - 1])
    ensures Trim(t + " ") == t
  {
    var s := t + " ";
    SpanSpaceConcat([], s);
    assert [] + s == s;
    assert s[0..] == s;
    assert s[..|s| - 1] == t;
    assert SpanSpaceEnd(t) == 0;
    assert SpanSpaceEnd(s) == 1;
  }

  /** Text without digits never starts a percentage: the search passes over
      it. */
  lemma {:induction false} SkipNoDigits(prefix: string, rest: string)
    requires forall i :: 0 <= i < |prefix| ==> !IsDigit(prefix[i])
    ensures FirstPercent(prefix + rest) == FirstPercent(rest)
    decreases |prefix|
  {
    if prefix == [] {
      assert prefix + rest == rest;
    } else {
      var s := prefix + rest;
      SpanDigitsConcat([], s);
      assert [] + s == s;
      assert s[1..] == prefix[1..] + rest;
      SkipNoDigits(prefix[1..], rest);
    }
  }

  /** Text without digits is kept by the removal. */
  lemma {:induction false} KeepNoDigits(prefix: string, rest: string)
    requires forall i :: 0 <= i < |prefix| ==> !IsDigit(prefix[i])
    ensures RemovePercents(prefix + rest) == prefix + RemovePercents(rest)
    decreases |prefix|
  {
    if prefix == [] {
      assert prefix + rest == rest;
    } else {
      var s := prefix + rest;
      SpanDigitsConcat([], s);
      assert [] + s == s;
      assert s[1..] == prefix[1..] + rest;
      KeepNoDigits(prefix[1..], rest);
      ConcatAssoc([prefix[0]], prefix[1..], RemovePercents(rest));
      assert [prefix[0]] + prefix[1..] == prefix;
    }
  }

  /** `N%` on its own is one percentage, removed whole. */
  lemma DigitsPercent(digits: string)
    requires digits != [] && AllDigits(digits)
    ensures PercentAt(digits + "%") == |digits|
    ensures FirstPercent(digits + "%") == Some(digits)
    ensures RemovePercents(digits + "%") == []
  {
    var s := digits + "%";
    SpanDigitsConcat(digits, "%");
    assert s[..|digits|] == digits;
    assert s[|digits| + 1..] == [];
  }

  /** `createLinearGradient`: the group of `/linear-gradient\((.*?)\)/`; a
      missing or empty group gives a top-to-bottom gradient without stops. */
  function GradientPaint(e: Element, info: Option<string>, trig: Trig): (p: Paint)
    ensures p.LinearGradient?
    ensures info.None? || info == Some("") ==>
      p == LinearGradient(Int(0), Int(0), Int(0), Int(e.clientHeight), [])
  {
    if info.None? || info.value == "" then
      LinearGradient(Int(0), Int(0), Int(0), Int(e.clientHeight), [])
    else
      var parts := Split(info.value, ',');
      var l := GradientDirection(e, Trim(parts[0]), trig);
      LinearGradient(l.x0, l.y0, l.x1, l.y1, ColorStops(parts[1..]))
  }

  /** `drawBackground`: nothing without a `background` declaration; otherwise
      the fill style is the value itself, or a linear gradient when the value
      mentions `linear-gradient`, and the element's box is filled. */
  function BackgroundCommands(e: Element, background: Option<string>, trig: Trig): (cmds: seq<DrawCmd>)
    ensures background.None? ==> cmds == []
    ensures background.Some? ==>
      |cmds| == 2 && cmds[1] == FillRect(Int(0), Int(0), Int(e.clientWidth), Int(e.clientHeight))
    ensures background.Some? && !Contains(background.value, "linear-gradient") ==>
      cmds[0] == SetFillStyle(Solid(CssText(background.value)))
  {
    if background.None? then []
    else
      var value := background.value;
      var paint :=
        if Contains(value, "linear-gradient") then
          GradientPaint(e, FindGroup(value, "linear-gradient", Lazy), trig)
        else Solid(CssText(value));
      [SetFillStyle(paint), FillRect(Int(0), Int(0), Int(e.clientWidth), Int(e.clientHeight))]
  }

  /** The eight edge points of `drawRoundedRect`: those of the clip path, with
      every coordinate moved half the border width inwards. */
  function InsetEdgePoints(w: Num, h: Num, r: Num, half: Num): (pts: seq<Point>)
    ensures |pts| == 8
  {
    [ Point(Add(r, half), half), Point(Sub(Sub(w, r), half), half),
      Point(Sub(w, half), Add(r, half)), Point(Sub(w, half), Sub(Sub(h, r), half)),
      Point(Sub(Sub(w, r), half), Sub(h, half)), Point(Add(r, half), Sub(h, half)),
      Point(half, Sub(Sub(h, r), half)), Point(half, Add(r, half)) ]
  }

  /** The control points of `drawRoundedRect`: the canvas corners moved half
      the border width inwards. */
  function InsetCorners(w: Num, h: Num, half: Num): seq<Point> {
    [Point(Sub(w, half), half), Point(Sub(w, half), Sub(h, half)),
     Point(half, Sub(h, half)), Point(half, half)]
  }

  /** `drawRoundedRect`: the stroked rounded path inset by half the border width. */
  function RoundedBorder(e: Element, r: Num, bw: Num): (cmds: seq<DrawCmd>)
    ensures |cmds| == 12 && cmds[11] == Stroke
  {
    var half := Div(bw, Int(2));
    var w, h := Int(e.clientWidth), Int(e.clientHeight);
    PathThrough(InsetEdgePoints(w, h, r, half), InsetCorners(w, h, half)) + [Stroke]
  }

  /** A point moved by `d` along both axes. */
  function Shift(p: Point, d: real): Point {
    match (p.x, p.y)
    case (Fin(x), Fin(y)) => Point(Fin(x + d), Fin(y + d))
    case _ => p
  }

  /** The rounded border of an element of `w` x `h` with a border `bw` wide is
      the rounded clip path of a canvas of `(w - bw)` x `(h - bw)` with the
      same radius, moved by half the border width: the stroke runs down the
      middle of the border. */
  lemma InsetIsShiftedPath(w: real, h: real, r: real, bw: real)
    ensures var inset := InsetEdgePoints(Fin(w), Fin(h), Fin(r), Fin(bw / 2.0));
      var outline := EdgePoints(Fin(w - bw), Fin(h - bw), Uniform(Fin(r)));
      forall i :: 0 <= i < 8 ==> inset[i] == Shift(outline[i], bw / 2.0)
    ensures var inset := InsetCorners(Fin(w), Fin(h), Fin(bw / 2.0));
      var outline := Corners(Fin(w - bw), Fin(h - bw));
      forall i :: 0 <= i < 4 ==> inset[i] == Shift(outline[i], bw / 2.0)
  {
  }

  /** `drawBorder`: nothing without a `border` declaration; otherwise the last
      token is the stroke colour and the first, resolved, the line width; a
      positive radius strokes the rounded path unless the colour is `none`,
      and anything else strokes the element's box inset by half the width. */
  function BorderCommands(e: Element, border: Option<string>, r: Num, bw: Num): (cmds: seq<DrawCmd>)
    ensures border.None? ==> cmds == []
    ensures border.Some? ==>
      (|cmds| >= 3 && cmds[0] == SetStrokeStyle(Solid(CssText(BorderColor(border.value)))) &&
       cmds[1] == SetLineWidth(bw))
    ensures border.Some? && (!Less(Int(0), r) || BorderColor(border.value) == "none") ==>
      cmds[2..] == [StrokeRect(Div(bw, Int(2)), Div(bw, Int(2)),
                               Sub(Int(e.clientWidth), bw), Sub(Int(e.clientHeight), bw))]
  {
    if border.None? then []
    else
      var color := BorderColor(border.value);
      [SetStrokeStyle(Solid(CssText(color))), SetLineWidth(bw)] + BorderShape(e, color, r, bw)
  }

  /** The stroke of `drawBorder` once the colour is known. */
  function BorderShape(e: Element, color: string, r: Num, bw: Num): (cmds: seq<DrawCmd>)
    ensures |cmds| >= 1
  {
    if Less(Int(0), r) && color != "none" then RoundedBorder(e, r, bw)
    else
      var half := Div(bw, Int(2));
      [StrokeRect(half, half, Sub(Int(e.clientWidth), bw), Sub(Int(e.clientHeight), bw))]
  }

  /** The uniform rounded clip: only for a positive radius. */
  function ClipCommands(r: Num, w: Num, h: Num): (cmds: seq<DrawCmd>)
    ensures !Less(Int(0), r) ==> cmds == []
    ensures Less(Int(0), r) ==> Vertices(cmds) == EdgePoints(w, h, Uniform(r)) + [Point(r, Int(0))]
  {
    if Less(Int(0), r) then
      RadiusClip.ClipOutline(w, h, Uniform(r));
      RoundedRectPath(w, h, Uniform(r)) + [Clip]
    else []
  }

  /** What `pixelate` draws on its canvas of `w` x `h` before downsampling:
      clear, clip, background, border. */
  function SceneCommands(css: string, e: Element, env: Env, w: Num, h: Num): seq<DrawCmd> {
    var border := FindDecl(css, "border");
    Scene(e, FindDecl(css, "background"), border, BorderRadius(css, env), BorderWidth(border, env), env.trig, w, h)
  }

  /** The scene once the declarations are read and resolved. */
  function Scene(e: Element, background: Option<string>, border: Option<string>, r: Num, bw: Num,
                 trig: Trig, w: Num, h: Num): seq<DrawCmd>
  {
    [ClearRect(Int(0), Int(0), w, h)] + ClipCommands(r, w, h)
      + BackgroundCommands(e, background, trig) + BorderCommands(e, border, r, bw)
  }

  /** Without `border-radius`, `background` or `border` declarations, and
      with "0" resolving to 0, the canvas is only cleared. */
  lemma PlainStyleOnlyClears(css: string, e: Element, env: Env, w: Num, h: Num)
    requires FindDecl(css, "border-radius").None? && env.toPx("0") == Int(0)
    requires FindDecl(css, "background").None? && FindDecl(css, "border").None?
    ensures SceneCommands(css, e, env, w, h) == [ClearRect(Int(0), Int(0), w, h)]
  {
  }

  /** `Math.floor(n / unitPixel)` assigned to a canvas dimension. */
  function SmallSize(n: nat, unitPixel: Num): nat {
    CanvasDim(MathFloor(Div(Int(n), unitPixel)))
  }

  /** The small canvas is `floor(n / unitPixel)` wide: 0 when the element is
      narrower than one pixel block. */
  lemma SmallSizeFloor(n: nat, u: real)
    requires u >= 1.0 && n <= MaxDimension
    ensures SmallSize(n, Fin(u)) == Floor(n as real / u)
    ensures (n as real) < u ==> SmallSize(n, Fin(u)) == 0
  {
    var q := n as real / u;
    QuotientBounds(n as real, u);
    var f := Floor(q);
    assert 0 <= f <= n;
    assert Div(Int(n), Fin(u)) == Fin(q);
    assert MathFloor(Fin(q)) == Int(f);
    assert Floor(f as real) == f;
  }

  lemma QuotientBounds(x: real, u: real)
    requires x >= 0.0 && u >= 1.0
    ensures 0.0 <= x / u <= x
    ensures x < u ==> x / u < 1.0
  {
    var q := x / u;
    assert q * u == x;
    assert q * (u - 1.0) >= 0.0;
  }

  /** The downsampled copy: a canvas of the small size holding the scene
      scaled down onto it. */
  function SmallImage(e: Element, unitPixel: Num, scene: ImageSource): ImageSource {
    var sw, sh := SmallSize(e.clientWidth, unitPixel), SmallSize(e.clientHeight, unitPixel);
    CanvasImage(sw, sh, [DrawImageRegion(scene, Int(0), Int(0), Int(e.clientWidth), Int(e.clientHeight),
                                         Int(0), Int(0), Int(sw), Int(sh))])
  }

  /** The calls `createPixelatedImage` makes on the main canvas of `w` x `h`
      once the scene `scene` is drawn: smoothing off, clear, and the small
      copy drawn back over the whole canvas. */
  function UpscaleCommands(e: Element, unitPixel: Num, scene: ImageSource, w: nat, h: nat): seq<DrawCmd> {
    var small := SmallImage(e, unitPixel, scene);
    [SetSmoothing(false), ClearRect(Int(0), Int(0), Int(w), Int(h)),
     DrawImageRegion(small, Int(0), Int(0), Int(small.width), Int(small.height), Int(0), Int(0), Int(w), Int(h))]
  }

  /** `createPixelatedImage`. Without a context for the small canvas it
      returns the empty text and leaves the main canvas as it was; otherwise
      the main canvas ends with the upscaled copy of what it held, keeps its
      size, and its data URL is returned. */
  method CreatePixelatedImage(ctx: Context, e: Element, unitPixel: Num, smallContext: bool,
                              toDataUrl: ImageSource -> string)
    returns (dataUrl: string)
    modifies ctx
    ensures ctx.width == old(ctx.width) && ctx.height == old(ctx.height)
    ensures !smallContext ==> dataUrl == "" && ctx.log == old(ctx.log)
    ensures smallContext ==>
      ctx.log == old(ctx.log) + UpscaleCommands(e, unitPixel, old(ctx.Image()), old(ctx.width), old(ctx.height)) &&
      dataUrl == toDataUrl(ctx.Image())
  {
    var small := new Context(300, 150);
    if !smallContext {
      return "";
    }
    small.Resize(SmallSize(e.clientWidth, unitPixel), SmallSize(e.clientHeight, unitPixel));
    small.Do(DrawImageRegion(ctx.Image(), Int(0), Int(0), Int(e.clientWidth), Int(e.clientHeight),
                             Int(0), Int(0), Int(small.width), Int(small.height)));
    assert small.Image() == SmallImage(e, unitPixel, old(ctx.Image()));
    ctx.Do(SetSmoothing(false));
    ctx.Do(ClearRect(Int(0), Int(0), Int(ctx.width), Int(ctx.height)));
    ctx.Do(DrawImageRegion(small.Image(), Int(0), Int(0), Int(small.width), Int(small.height),
                           Int(0), Int(0), Int(ctx.width), Int(ctx.height)));
    dataUrl := toDataUrl(ctx.Image());
  }

  /** The declarations the patch appends after the original style. */
  function PatchDeclarations(dataUrl: string): seq<Declaration> {
    [ Declaration("border", "none"), Declaration("border-radius", "0"),
      Declaration("background", "url(" + dataUrl + ")"),
      Declaration("background-size", "100% 100%"), Declaration("image-rendering", "pixelated") ]
  }

  /** What `pixelate` returns, with the canvas it draws on created inside:
      the original style when either the 2D context or the element is
      missing, otherwise the patch showing the data URL of the pixelated
      canvas (empty when the small canvas has no context). */
  function PixelateOutcome(css: string, element: Option<Element>, unitPixel: Num, env: Env,
                           context: bool, smallContext: bool): Outcome
  {
    if !context || element.None? then PrevCss
    else
      var e := element.value;
      var w, h := CanvasDim(Int(e.clientWidth)), CanvasDim(Int(e.clientHeight));
      var scene := SceneCommands(css, e, env, Int(w), Int(h));
      var dataUrl :=
        if smallContext then
          env.toDataUrl(CanvasImage(w, h, scene + UpscaleCommands(e, unitPixel, CanvasImage(w, h, scene), w, h)))
        else "";
      Patched(PatchDeclarations(dataUrl))
  }

  /** The original style comes back exactly when the canvas context or the
      element is missing; otherwise the patch turns off the border and the
      rounding, which the picture now shows, and stretches the picture over
      the element without smoothing. */
  lemma PatchRule(css: string, element: Option<Element>, unitPixel: Num, env: Env,
                  context: bool, smallContext: bool)
    ensures var out := PixelateOutcome(css, element, unitPixel, env, context, smallContext);
      (out == PrevCss <==> !context || element.None?) &&
      (out.Patched? ==>
         (|out.declarations| == 5 &&
          out.declarations[0] == Declaration("border", "none") &&
          out.declarations[1] == Declaration("border-radius", "0") &&
          out.declarations[2].property == "background" &&
          StartsWith(out.declarations[2].value, "url(") &&
          out.declarations[3] == Declaration("background-size", "100% 100%") &&
          out.declarations[4] == Declaration("image-rendering", "pixelated")))
    ensures context && element.Some? && !smallContext ==>
      PixelateOutcome(css, element, unitPixel, env, context, smallContext) == Patched(PatchDeclarations(""))
  {
    var out := PixelateOutcome(css, element, unitPixel, env, context, smallContext);
    if out.Patched? {
      var v := out.declarations[2].value;
      assert v[..4] == "url(";
    }
  }

  /** `pixelate`. */
  method Pixelate(css: string, element: Option<Element>, unitPixel: Num, env: Env,
                  context: bool, smallContext: bool)
    returns (out: Outcome)
    ensures out == PixelateOutcome(css, element, unitPixel, env, context, smallContext)
  {
    var ctx := new Context(300, 150);
    if !context || element.None? {
      return PrevCss;
    }
    var e := element.value;
    ctx.Resize(CanvasDim(Int(e.clientWidth)), CanvasDim(Int(e.clientHeight)));
    var background := FindDecl(css, "background");
    var border := FindDecl(css, "border");
    var radius := BorderRadius(css, env);
    var borderWidth := BorderWidth(border, env);
    DrawScene(ctx, e, background, border, radius, borderWidth, env.trig);
    assert ctx.log == SceneCommands(css, e, env, Int(ctx.width), Int(ctx.height));
    var dataUrl := CreatePixelatedImage(ctx, e, unitPixel, smallContext, env.toDataUrl);
    return Patched(PatchDeclarations(dataUrl));
  }

  /** The drawing `pixelate` does before `createPixelatedImage`. */
  method DrawScene(ctx: Context, e: Element, background: Option<string>, border: Option<string>,
                   radius: Num, borderWidth: Num, trig: Trig)
    modifies ctx
    ensures ctx.width == old(ctx.width) && ctx.height == old(ctx.height)
    ensures ctx.log == old(ctx.log) + Scene(e, background, border, radius, borderWidth, trig,
                                            Int(old(ctx.width)), Int(old(ctx.height)))
  {
    ghost var start := ctx.log;
    var w, h := Int(ctx.width), Int(ctx.height);
    ctx.Do(ClearRect(Int(0), Int(0), w, h));
    ClipToRadius(ctx, radius);
    ghost var log := [ClearRect(Int(0), Int(0), w, h)] + ClipCommands(radius, w, h);
    AppendAssociative(start, [ClearRect(Int(0), Int(0), w, h)], ClipCommands(radius, w, h));
    DrawBackground(ctx, e, background, trig);
    AppendAssociative(start, log, BackgroundCommands(e, background, trig));
    log := log + BackgroundCommands(e, background, trig);
    DrawBorder(ctx, e, border, radius, borderWidth);
    AppendAssociative(start, log, BorderCommands(e, border, radius, borderWidth));
  }

  /** The clip of `draw` for a positive radius: the rounded rectangle of the
      whole canvas traced as a path, then `clip()`. */
  method ClipToRadius(ctx: Context, radius: Num)
    modifies ctx
    ensures ctx.width == old(ctx.width) && ctx.height == old(ctx.height)
    ensures ctx.log == old(ctx.log) + ClipCommands(radius, Int(old(ctx.width)), Int(old(ctx.height)))
  {
    if Less(Int(0), radius) {
      RadiusClip.TraceRoundedRect(ctx, Uniform(radius));
      ctx.Do(Clip);
    }
  }

  /** `drawBackground`. */
  method DrawBackground(ctx: Context, e: Element, background: Option<string>, trig: Trig)
    modifies ctx
    ensures ctx.width == old(ctx.width) && ctx.height == old(ctx.height)
    ensures ctx.log == old(ctx.log) + BackgroundCommands(e, background, trig)
  {
    if background.Some? {
      var value := background.value;
      if Contains(value, "linear-gradient") {
        var info := FindGroup(value, "linear-gradient", Lazy);
        ctx.Do(SetFillStyle(GradientPaint(e, info, trig)));
      } else {
        ctx.Do(SetFillStyle(Solid(CssText(value))));
      }
      ctx.Do(FillRect(Int(0), Int(0), Int(e.clientWidth), Int(e.clientHeight)));
    }
  }

  /** `drawBorder`. */
  method DrawBorder(ctx: Context, e: Element, border: Option<string>, r: Num, bw: Num)
    modifies ctx
    ensures ctx.width == old(ctx.width) && ctx.height == old(ctx.height)
    ensures ctx.log == old(ctx.log) + BorderCommands(e, border, r, bw)
  {
    if border.Some? {
      ghost var start := ctx.log;
      var color := BorderColor(border.value);
      ctx.Do(SetStrokeStyle(Solid(CssText(color))));
      ctx.Do(SetLineWidth(bw));
      ghost var head := [SetStrokeStyle(Solid(CssText(color))), SetLineWidth(bw)];
      assert ctx.log == start + head;
      assert BorderCommands(e, border, r, bw) == head + BorderShape(e, color, r, bw);
      AppendAssociative(start, head, BorderShape(e, color, r, bw));
      if Less(Int(0), r) && color != "none" {
        DrawRoundedRect(ctx, e, r, bw);
      } else {
        var half := Div(bw, Int(2));
        ctx.Do(StrokeRect(half, half, Sub(Int(e.clientWidth), bw), Sub(Int(e.clientHeight), bw)));
      }
    }
  }

  /** `drawRoundedRect`. */
  method DrawRoundedRect(ctx: Context, e: Element, r: Num, bw: Num)
    modifies ctx
    ensures ctx.width == old(ctx.width) && ctx.height == old(ctx.height)
    ensures ctx.log == old(ctx.log) + RoundedBorder(e, r, bw)
  {
    var half := Div(bw, Int(2));
    var w, h := Int(e.clientWidth), Int(e.clientHeight);
    TracePath(ctx, InsetEdgePoints(w, h, r, half), InsetCorners(w, h, half));
    ctx.Do(Stroke);
  }

  /** The closed path through the edge points `p`, bending at `c`, one call
      at a time. */
  method TracePath(ctx: Context, p: seq<Point>, c: seq<Point>)
    requires |p| == 8 && |c| == 4
    modifies ctx
    ensures ctx.width == old(ctx.width) && ctx.height == old(ctx.height)
    ensures ctx.log == old(ctx.log) + PathThrough(p, c)
  {
    ghost var start := ctx.log;
    ctx.Do(BeginPath);
    ctx.Do(MoveTo(p[0].x, p[0].y));
    ghost var log := [BeginPath, MoveTo(p[0].x, p[0].y)];
    assert ctx.log == start + log;
    RadiusClip.TraceCorner(ctx, p[1], c[0], p[2]);
    log := log + Corner(p[1], c[0], p[2]);
    assert ctx.log == start + log;
    RadiusClip.TraceCorner(ctx, p[3], c[1], p[4]);
    log := log + Corner(p[3], c[1], p[4]);
    assert ctx.log == start + log;
    RadiusClip.TraceCorner(ctx, p[5], c[2], p[6]);
    log := log + Corner(p[5], c[2], p[6]);
    assert ctx.log == start + log;
    RadiusClip.TraceCorner(ctx, p[7], c[3], p[0]);
    log := log + Corner(p[7], c[3], p[0]);
    assert ctx.log == start + log;
    ctx.Do(ClosePath);
  }
}
