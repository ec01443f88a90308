/** The older engine's string CSS parser: units, colours, linear gradients and
    `property: value;` declaration lists. */
module CssParser {
  import opened Js
  import opened Text
  import opened NumText
  import opened Wrappers
  import opened PixelTypes

  // ----- parseUnit -----

  /** Length of the longest suffix of `s` without a decimal digit. */
  function SpanNonDigitEnd(s: string): (n: nat)
    ensures n <= |s|
    ensures forall i :: |s| - n <= i < |s| ==> !IsDigit(s[i])
    ensures n < |s| ==> IsDigit(s[|s| - n - 1])
  {
    if s == [] || IsDigit(s[|s| - 1]) then 0 else 1 + SpanNonDigitEnd(s[..|s| - 1])
  }

  /** The numeral `-?\d*\.?\d+`: an optional minus, then digits with at most one
      dot, ending in a digit. */
  predicate IsSimpleNumeral(t: string) {
    var r := if t != [] && t[0] == '-' then t[1..] else t;
    var k := SpanDigits(r);
    |r| > 0 && (k == |r| || (r[k] == '.' && k + 1 < |r| && AllDigits(r[k + 1..])))
  }

  /** The optional unit group; an absent unit is px. */
  function UnitOfSuffix(u: string): (r: Option<LengthUnit>)
    ensures r.Some? ==> u == "" || u == UnitName(r.value)
  {
    if u == "" || u == "px" then Some(Px)
    else if u == "%" then Some(Percent)
    else if u == "em" then Some(Em)
    else if u == "rem" then Some(Rem)
    else if u == "vw" then Some(Vw)
    else if u == "vh" then Some(Vh)
    else None
  }

  /** The match of `/^(-?\d*\.?\d+)(px|%|em|rem|vw|vh)?$/`.  The numeral ends in
      a digit and no unit contains one, so the text splits after its last digit. */
  function MatchUnit(s: string): (m: Option<(string, LengthUnit)>)
    ensures m.Some? ==> IsSimpleNumeral(m.value.0)
    ensures m.Some? ==> s == m.value.0 || s == m.value.0 + UnitName(m.value.1)
  {
    var j := |s| - SpanNonDigitEnd(s);
    var u := UnitOfSuffix(s[j..]);
    if IsSimpleNumeral(s[..j]) && u.Some? then
      assert s == s[..j] + s[j..];
      Some((s[..j], u.value))
    else None
  }

  /** `parseUnit(value)`: a number is taken in px; text is matched as above and
      gives 0px when it does not match. */
  function ParseUnit(value: PropValue): (u: PixelUnit)
    ensures value.Number? ==> u == PixelUnit(value.n, Px)
    ensures value.Str? && MatchUnit(value.s).None? ==> u == PixelUnit(Fin(0.0), Px)
    ensures value.Str? && MatchUnit(value.s).Some? ==> u.unit == MatchUnit(value.s).value.1
  {
    match value
    case Number(n) => PixelUnit(n, Px)
    case Str(s) =>
      match MatchUnit(s)
      case None => PixelUnit(Fin(0.0), Px)
      case Some((numeral, unit)) => PixelUnit(ParseFloat(numeral), unit)
  }

  lemma {:induction false} SpanNonDigitEndConcat(d: string, u: string)
    requires |d| > 0 && IsDigit(d[|d| - 1])
    requires forall i :: 0 <= i < |u| ==> !IsDigit(u[i])
    ensures SpanNonDigitEnd(d + u) == |u|
  {
    if u == [] {
      assert d + u == d;
    } else {
      assert (d + u)[..|d + u| - 1] == d + u[..|u| - 1];
      SpanNonDigitEndConcat(d, u[..|u| - 1]);
    }
  }

  /** A simple numeral never reads as NaN or an infinity. */
  lemma SimpleNumeralFinite(t: string)
    requires IsSimpleNumeral(t)
    ensures ParseFloat(t).Fin?
  {
    var r := if t != [] && t[0] == '-' then t[1..] else t;
    assert SpanSpace(t) == 0 by { assert IsDigit(r[0]) || r[0] == '.'; assert t[0] == '-' || t[0] == r[0]; }
    assert t[0..] == t;
    assert SignPrefix(t).1 == r;
    assert !StartsWith(r, "Infinity") by { assert r[0] != 'I'; }
  }

  /** A string argument always yields a finite value. */
  lemma ParseUnitFinite(s: string)
    ensures ParseUnit(Str(s)).value.Fin?
  {
    if MatchUnit(s).Some? { SimpleNumeralFinite(MatchUnit(s).value.0); }
  }

  lemma UnitNameMatches(u: LengthUnit)
    ensures UnitOfSuffix(UnitName(u)) == Some(u)
    ensures forall i :: 0 <= i < |UnitName(u)| ==> !IsDigit(UnitName(u)[i])
  {
  }

  /** The split after the last digit of `t + name`, where `name` has no digit. */
  lemma SplitAfterDigits(t: string, name: string)
    requires |t| > 0 && IsDigit(t[|t| - 1])
    requires forall i :: 0 <= i < |name| ==> !IsDigit(name[i])
    ensures var s := t + name; var j := |s| - SpanNonDigitEnd(s);
      j == |t| && s[..j] == t && s[j..] == name
  {
    SpanNonDigitEndConcat(t, name);
    assert (t + name)[..|t|] == t && (t + name)[|t|..] == name;
  }

  lemma MatchUnitWith(t: string, u: LengthUnit)
    requires IsSimpleNumeral(t) && IsDigit(t[|t| - 1])
    ensures MatchUnit(t + UnitName(u)) == Some((t, u))
  {
    UnitNameMatches(u);
    SplitAfterDigits(t, UnitName(u));
  }

  lemma MatchUnitBare(t: string)
    requires IsSimpleNumeral(t) && IsDigit(t[|t| - 1])
    ensures MatchUnit(t) == Some((t, Px))
  {
    SplitAfterDigits(t, "");
    assert t + "" == t;
  }

  lemma DigitsNumeral(d: string)
    requires |d| > 0 && AllDigits(d)
    ensures IsSimpleNumeral(d) && IsDigit(d[|d| - 1])
    ensures IsSimpleNumeral("-" + d) && IsDigit(("-" + d)[|"-" + d| - 1])
  {
    SpanDigitsAll(d);
    assert d[0] != '-';
    assert ("-" + d)[1..] == d;
  }

  /** Digits followed by a unit parse to that value in that unit, and a bare
      run of digits parses to px. */
  lemma ParseUnitDigits(d: string, u: LengthUnit)
    requires |d| > 0 && AllDigits(d)
    ensures ParseUnit(Str(d + UnitName(u))) == PixelUnit(Fin(RadixValue(d, 10) as real), u)
    ensures ParseUnit(Str(d)) == PixelUnit(Fin(RadixValue(d, 10) as real), Px)
  {
    DigitsNumeral(d);
    MatchUnitWith(d, u);
    MatchUnitBare(d);
    DigitsValue(d);
  }

  /** Unlike the newer unit resolver, a leading minus is accepted. */
  lemma ParseUnitNegative(d: string, u: LengthUnit)
    requires |d| > 0 && AllDigits(d)
    ensures ParseUnit(Str("-" + d + UnitName(u))) == PixelUnit(Fin(-(RadixValue(d, 10) as real)), u)
  {
    DigitsNumeral(d);
    MatchUnitWith("-" + d, u);
    NegatedDigitsValue(d);
  }

  // ----- parseColor -----

  /** The body of `#rgb` or `#rrggbb`, each channel read with `parseInt(_, 16)`;
      a body of any other length is not a hex colour. */
  function HexColor(hex: string): (c: Option<PixelColor>)
    ensures c.Some? <==> |hex| == 3 || |hex| == 6
    ensures c.Some? ==> c.value.a == Int(255)
  {
    if |hex| == 3 then Some(HexChannels(hex[0], hex[0], hex[1], hex[1], hex[2], hex[2]))
    else if |hex| == 6 then Some(HexChannels(hex[0], hex[1], hex[2], hex[3], hex[4], hex[5]))
    else None
  }

  /** Three channels from three two-digit hex texts (`parseInt(hex.slice(0, 2), 16)` and so on). */
  function HexChannels(r0: char, r1: char, g0: char, g1: char, b0: char, b1: char): PixelColor {
    PixelColor(ParseIntHex([r0, r1]), ParseIntHex([g0, g1]), ParseIntHex([b0, b1]), Int(255))
  }

  /** The largest index `j >= 1` with `r[j]` a backslash, or 0 when there is none. */
  function LastBackslash(r: string): (j: nat)
    ensures j == 0 || (1 <= j < |r| && r[j] == '\\')
    ensures forall k :: j < k < |r| && 1 <= k ==> r[k] != '\\'
    decreases |r|
  {
    if |r| <= 1 then 0
    else if r[|r| - 1] == '\\' then |r| - 1
    else LastBackslash(r[..|r| - 1])
  }

  /** `([^)]+)\\` at the start of `t`: the greedy run of non-`)` characters backs
      off to its last backslash; the result is the run up to and including that
      backslash, which is what the first capture group of the patterns holds. */
  function RunToBackslash(t: string): (g: Option<string>)
    ensures g.Some? ==> |g.value| >= 2 && g.value[|g.value| - 1] == '\\' && ')' !in g.value
    ensures g.Some? ==> StartsWith(t, g.value)
  {
    var n := SpanNotClose(t);
    var j := LastBackslash(t[..n]);
    if j == 0 then None
    else
      assert t[..j + 1] == t[..n][..j + 1];
      Some(t[..j + 1])
  }

  /** The pattern `<head>\\(([^)]+)\\)` (a literal backslash after the head) at
      the start of `u`, with the heads tried in order. */
  function MatchAtStart(u: string, heads: seq<string>): (g: Option<string>)
    ensures g.Some? ==> '\\' in u
  {
    if heads == [] then None
    else if StartsWith(u, heads[0] + "\\") && RunToBackslash(u[|heads[0]| + 1..]).Some? then
      assert u[|heads[0]|] == (heads[0] + "\\")[|heads[0]|];
      RunToBackslash(u[|heads[0]| + 1..])
    else MatchAtStart(u, heads[1..])
  }

  /** The leftmost match at position `p` or later. */
  function FindMatch(s: string, heads: seq<string>, p: nat): Option<string>
    requires p <= |s|
    decreases |s| - p
  {
    var m := MatchAtStart(s[p..], heads);
    if m.Some? then m else if p == |s| then None else FindMatch(s, heads, p + 1)
  }

  /** The patterns find nothing in a text without a backslash. */
  lemma {:induction false} NoBackslashNoMatch(s: string, heads: seq<string>, p: nat)
    requires p <= |s| && '\\' !in s
    ensures FindMatch(s, heads, p) == None
    decreases |s| - p
  {
    assert '\\' !in s[p..];
    if p < |s| { NoBackslashNoMatch(s, heads, p + 1); }
  }

  /** `values[i] || d` where a missing entry, like NaN and 0, is falsy. */
  function Entry(values: seq<Num>, i: nat, d: Num): Num {
    if i < |values| then Or(values[i], d) else d
  }

  /** `Math.round(values[i] || 0)`. */
  function Channel(values: seq<Num>, i: nat): Num {
    MathRound(Entry(values, i, Fin(0.0)))
  }

  /** `Math.round((values[3] || 1) * 255)`. */
  function Alpha(values: seq<Num>): Num {
    MathRound(Mul(Entry(values, 3, Fin(1.0)), Fin(255.0)))
  }

  /** The channels of an rgb()/rgba() match from its comma-separated numbers. */
  function RgbColor(values: seq<Num>): PixelColor {
    PixelColor(Channel(values, 0), Channel(values, 1), Channel(values, 2), Alpha(values))
  }

  /** The pieces of a text between commas, each trimmed and read by parseFloat. */
  function CommaNumbers(g: string): (r: seq<Num>)
    ensures |r| == |Split(g, ',')| && forall i :: 0 <= i < |r| ==> r[i] == ParseFloat(Trim(Split(g, ',')[i]))
    ensures |r| == Count(g, ',') + 1
    ensures ',' !in g ==> r == [ParseFloat(Trim(g))]
  {
    SplitLength(g, ',');
    SplitWhole(g, ',');
    var ps := Split(g, ',');
    seq(|ps|, i requires 0 <= i < |ps| => ParseFloat(Trim(ps[i])))
  }

  /** A text without the separator splits into itself alone. */
  lemma SplitWhole(s: string, sep: char)
    ensures sep !in s ==> Split(s, sep) == [s]
  {
    if sep !in s {
      SplitNoSeparator(s, sep);
    }
  }

  const NamedColors: map<string, PixelColor> := map[
    "transparent" := PixelColor(Int(0), Int(0), Int(0), Int(0)),
    "black" := PixelColor(Int(0), Int(0), Int(0), Int(255)),
    "white" := PixelColor(Int(255), Int(255), Int(255), Int(255)),
    "red" := PixelColor(Int(255), Int(0), Int(0), Int(255)),
    "green" := PixelColor(Int(0), Int(128), Int(0), Int(255)),
    "blue" := PixelColor(Int(0), Int(0), Int(255), Int(255))]

  const OpaqueBlack := PixelColor(Int(0), Int(0), Int(0), Int(255))

  function NamedColor(name: string): PixelColor {
    if name in NamedColors then NamedColors[name] else OpaqueBlack
  }

  /** `parseColor(color)`: hex first, then the rgb pattern, then the lower-cased
      name, then opaque black. */
  function ParseColor(color: string): PixelColor {
    if StartsWith(color, "#") && HexColor(color[1..]).Some? then HexColor(color[1..]).value
    else
      var m := FindMatch(color, ["rgba", "rgb"], 0);
      if m.Some? then RgbColor(CommaNumbers(m.value))
      else NamedColor(ToLower(color))
  }

  /** `#abc` is `#aabbcc`, whatever the three characters are. */
  lemma ShortHexDoubles(x: char, y: char, z: char)
    ensures ParseColor(['#', x, y, z]) == ParseColor(['#', x, x, y, y, z, z])
    ensures ParseColor(['#', x, y, z]).a == Int(255)
  {
    var h3, h6 := ['#', x, y, z], ['#', x, x, y, y, z, z];
    assert h3[1..] == [x, y, z] && h6[1..] == [x, x, y, y, z, z];
    assert h3[..1] == "#" && h6[..1] == "#";
    HexFirst(h3);
    HexFirst(h6);
  }

  lemma LongHex(a: char, b: char, c: char, d: char, e: char, f: char)
    requires IsRadixDigit(a, 16) && IsRadixDigit(b, 16) && IsRadixDigit(c, 16)
    requires IsRadixDigit(d, 16) && IsRadixDigit(e, 16) && IsRadixDigit(f, 16)
    ensures HexChannels(a, b, c, d, e, f) ==
      PixelColor(Int(16 * DigitWeight(a) + DigitWeight(b)), Int(16 * DigitWeight(c) + DigitWeight(d)),
                 Int(16 * DigitWeight(e) + DigitWeight(f)), Int(255))
  {
    HexPair(a, b);
    HexPair(c, d);
    HexPair(e, f);
  }

  /** A hex body of the right length wins over every other reading. */
  lemma HexFirst(color: string)
    requires StartsWith(color, "#") && HexColor(color[1..]).Some?
    ensures ParseColor(color) == HexColor(color[1..]).value
  {
  }

  /** `#rrggbb` gives the three hex pairs in order, fully opaque. */
  lemma LongHexChannels(a: char, b: char, c: char, d: char, e: char, f: char)
    requires IsRadixDigit(a, 16) && IsRadixDigit(b, 16) && IsRadixDigit(c, 16)
    requires IsRadixDigit(d, 16) && IsRadixDigit(e, 16) && IsRadixDigit(f, 16)
    ensures ParseColor(['#', a, b, c, d, e, f]) ==
      PixelColor(Int(16 * DigitWeight(a) + DigitWeight(b)), Int(16 * DigitWeight(c) + DigitWeight(d)),
                 Int(16 * DigitWeight(e) + DigitWeight(f)), Int(255))
  {
    var s := ['#', a, b, c, d, e, f];
    assert s[1..] == [a, b, c, d, e, f] && s[..1] == "#";
    HexFirst(s);
    LongHex(a, b, c, d, e, f);
  }

  /** A missing, zero or unreadable channel becomes 0; a finite one is rounded half up. */
  lemma ChannelRule(values: seq<Num>, i: nat)
    ensures (|values| <= i || !Truthy(values[i])) ==> Channel(values, i) == Fin(0.0)
    ensures i < |values| && Truthy(values[i]) && values[i].Fin? ==> Channel(values, i) == Int(Round(values[i].v))
  {
    assert Round(0.0) == 0;
  }

  /** Missing and zero channels become 0 and a missing or zero alpha becomes
      fully opaque. */
  lemma RgbDefaults(values: seq<Num>)
    ensures (|values| < 1 || !Truthy(values[0])) ==> RgbColor(values).r == Fin(0.0)
    ensures (|values| < 2 || !Truthy(values[1])) ==> RgbColor(values).g == Fin(0.0)
    ensures (|values| < 3 || !Truthy(values[2])) ==> RgbColor(values).b == Fin(0.0)
    ensures (|values| < 4 || !Truthy(values[3])) ==> RgbColor(values).a == Int(255)
  {
    ChannelRule(values, 0);
    ChannelRule(values, 1);
    ChannelRule(values, 2);
    assert Round(255.0) == 255;
  }

  /** CSS colour syntax without a backslash never meets the rgb pattern, so
      `rgb(...)` text falls through to the name lookup. */
  lemma RgbNeedsBackslash(color: string)
    requires '\\' !in color
    requires !StartsWith(color, "#") || !HexColor(color[1..]).Some?
    ensures ParseColor(color) == NamedColor(ToLower(color))
  {
    NoBackslashNoMatch(color, ["rgba", "rgb"], 0);
  }

  lemma NotNamedRgb(name: string)
    requires |name| >= 3 && name[0] == 'r' && name[1] == 'g'
    ensures NamedColor(name) == OpaqueBlack
  {
    assert name != "red";
  }

  /** The usual `rgb(...)` and `rgba(...)` notation, written without a backslash,
      is read as opaque black. */
  lemma RgbTextIsBlack(color: string)
    requires StartsWith(color, "rgb") && '\\' !in color
    ensures ParseColor(color) == OpaqueBlack
  {
    assert color[0] == 'r' && color[1] == 'g';
    assert !StartsWith(color, "#");
    RgbNeedsBackslash(color);
    NotNamedRgb(ToLower(color));
  }

  /** Names are matched without regard to case; unknown names are opaque black. */
  lemma NamedColorsIgnoreCase(s: string, t: string)
    requires ToLower(s) == ToLower(t)
    requires '\\' !in s && '\\' !in t
    requires !StartsWith(s, "#") && !StartsWith(t, "#")
    ensures ParseColor(s) == ParseColor(t)
    ensures ToLower(s) !in NamedColors ==> ParseColor(s) == OpaqueBlack
  {
    RgbNeedsBackslash(s);
    RgbNeedsBackslash(t);
  }

  /** `transparent` in any case has alpha 0. */
  lemma TransparentIsClear(color: string)
    requires ToLower(color) == "transparent"
    ensures ParseColor(color).a == Int(0)
  {
    assert '\\' !in color by {
      forall i | 0 <= i < |color| ensures color[i] != '\\' {
        assert ToLower(color)[i] == LowerChar(color[i]);
      }
    }
    assert color[..1] != "#" by { assert LowerChar(color[0]) == 't'; }
    RgbNeedsBackslash(color);
  }

  // ----- parseGradient -----

  /** Each piece trimmed. */
  function TrimAll(xs: seq<string>): (r: seq<string>)
  {
    seq(|xs|, i requires 0 <= i < |xs| => Trim(xs[i]))
  }

  /** The first parameter: an angle in degrees or one of three `to` keywords
      gives the angle and is consumed; anything else leaves angle 0. */
  function GradientHead(first: string): (r: (Num, nat))
    ensures r.1 == 1 <==> Contains(first, "deg") || first in {"to right", "to bottom", "to left"}
    ensures r.1 == 0 ==> r.0 == Int(0)
  {
    if Contains(first, "deg") then (ParseFloat(first), 1)
    else if first == "to right" then (Int(90), 1)
    else if first == "to bottom" then (Int(180), 1)
    else if first == "to left" then (Int(270), 1)
    else (Int(0), 0)
  }

  /** The three `to` keywords give 90, 180 and 270 degrees; `to top` is not one of them. */
  lemma ToKeywordAngles()
    ensures GradientHead("to right") == (Int(90), 1)
    ensures GradientHead("to bottom") == (Int(180), 1)
    ensures GradientHead("to left") == (Int(270), 1)
    ensures GradientHead("to top") == (Int(0), 0)
  {
    assert 'd' !in "to right";
    assert 'd' !in "to bottom";
    assert 'd' !in "to left";
    assert 'd' !in "to top";
    if Contains("to right", "deg") { ContainsHead("to right", "deg"); }
    if Contains("to bottom", "deg") { ContainsHead("to bottom", "deg"); }
    if Contains("to left", "deg") { ContainsHead("to left", "deg"); }
    if Contains("to top", "deg") { ContainsHead("to top", "deg"); }
  }

  /** Stop `i` of `n`: `i / (n - 1)` as JavaScript divides. */
  function StopPosition(i: nat, n: nat): Num {
    Div(Int(i), Int(n - 1))
  }

  /** With two or more stops the first is at 0, the last at 1, and they strictly
      increase; a lone stop is at 0/0, NaN. */
  lemma StopPositions(n: nat)
    ensures n >= 2 ==> StopPosition(0, n) == Fin(0.0) && StopPosition(n - 1, n) == Fin(1.0)
    ensures n >= 2 ==> forall i, j :: 0 <= i < j < n ==> StopPosition(i, n).v < StopPosition(j, n).v
    ensures n >= 2 ==> forall i :: 0 <= i < n ==> StopPosition(i, n) == Fin(i as real / (n - 1) as real)
    ensures StopPosition(0, 1) == NaN
  {
    if n >= 2 {
      var d := (n - 1) as real;
      SelfQuotient(d);
      forall i | 0 <= i < n ensures StopPosition(i, n) == Fin(i as real / d) {
        IntQuotient(i, n - 1);
      }
      forall i, j | 0 <= i < j < n
        ensures StopPosition(i, n).v < StopPosition(j, n).v
      {
        DivMonotone(i as real, j as real, d);
      }
    }
  }

  lemma DivMonotone(a: real, b: real, d: real)
    requires a < b && d > 0.0
    ensures a / d < b / d
  {
  }

  /** Stops after the head, parsed as colours and evenly spaced. */
  function EvenStops(colours: seq<string>, parse: string -> PixelColor): (r: seq<GradientStop>)
    ensures |r| == |colours|
    ensures forall i :: 0 <= i < |r| ==> r[i] == GradientStop(parse(Trim(colours[i])), StopPosition(i, |colours|))
    ensures |r| >= 2 ==> r[0].position == Fin(0.0) && r[|r| - 1].position == Fin(1.0)
    ensures |r| >= 2 ==> forall i, j :: 0 <= i < j < |r| ==>
      r[i].position.Fin? && r[j].position.Fin? && r[i].position.v < r[j].position.v
    ensures |r| == 1 ==> r[0].position == NaN
  {
    var r := seq(|colours|, i requires 0 <= i < |colours| => GradientStop(parse(Trim(colours[i])), StopPosition(i, |colours|)));
    EvenPositions(r);
    r
  }

  /** Stops placed at `StopPosition` run from 0 to 1 and strictly increase. */
  lemma EvenPositions(r: seq<GradientStop>)
    requires forall i :: 0 <= i < |r| ==> r[i].position == StopPosition(i, |r|)
    ensures |r| >= 2 ==> r[0].position == Fin(0.0) && r[|r| - 1].position == Fin(1.0)
    ensures |r| >= 2 ==> forall i, j :: 0 <= i < j < |r| ==>
      r[i].position.Fin? && r[j].position.Fin? && r[i].position.v < r[j].position.v
    ensures |r| == 1 ==> r[0].position == NaN
  {
    StopPositions(|r|);
  }

  /** The parameter text of a matched `linear-gradient`. */
  function GradientFromParams(params: string): (g: PixelGradient)
    ensures |g.stops| == |Split(params, ',')| - GradientHead(Trim(Split(params, ',')[0])).1
  {
    var parts := TrimAll(Split(params, ','));
    var (angle, start) := GradientHead(parts[0]);
    PixelGradient(Linear, angle, EvenStops(parts[start..], ParseColor))
  }

  /** `parseGradient(gradient)`: null unless the backslash pattern matches. */
  function ParseGradient(gradient: string): Option<PixelGradient> {
    match FindMatch(gradient, ["linear-gradient"], 0)
    case None => None
    case Some(params) => Some(GradientFromParams(params))
  }

  lemma GradientNeedsBackslash(gradient: string)
    requires '\\' !in gradient
    ensures ParseGradient(gradient) == None
  {
    NoBackslashNoMatch(gradient, ["linear-gradient"], 0);
  }

  // ----- parseCSS -----

  /** The rules of a declaration list: split on `;`, trimmed, empty ones dropped. */
  function NonEmpty(xs: seq<string>): (r: seq<string>)
    ensures forall i :: 0 <= i < |r| ==> r[i] != ""
    ensures |r| <= |xs|
  {
    if xs == [] then []
    else if xs[0] == "" then NonEmpty(xs[1..])
    else [xs[0]] + NonEmpty(xs[1..])
  }

  function Rules(css: string): seq<string> {
    NonEmpty(TrimAll(Split(css, ';')))
  }

  /** The trimmed text before the first `:`. */
  function Property(rule: string): string {
    Trim(Split(rule, ':')[0])
  }

  /** The trimmed text between the first and second `:`; empty when there is no `:`. */
  function Value(rule: string): string {
    var ps := Split(rule, ':');
    if |ps| > 1 then Trim(ps[1]) else ""
  }

  /** The style fields a declaration can assign. */
  datatype Field =
    | WidthField | HeightField | BackgroundColorField | BackgroundImageField | ColorField
    | FontSizeField | FontFamilyField | FontWeightField | TextAlignField | BorderRadiusField
    | PaddingField | Ignored

  /** The case labels of the switch: kebab-case and camelCase spellings. */
  function FieldOf(property: string): Field {
    if property == "width" then WidthField
    else if property == "height" then HeightField
    else if property == "background-color" || property == "backgroundColor" then BackgroundColorField
    else if property == "background-image" || property == "backgroundImage" then BackgroundImageField
    else if property == "color" then ColorField
    else if property == "font-size" || property == "fontSize" then FontSizeField
    else if property == "font-family" || property == "fontFamily" then FontFamilyField
    else if property == "font-weight" || property == "fontWeight" then FontWeightField
    else if property == "text-align" || property == "textAlign" then TextAlignField
    else if property == "border-radius" || property == "borderRadius" then BorderRadiusField
    else if property == "padding" then PaddingField
    else Ignored
  }

  /** A rule as the switch sees it: the field its property names and its value. */
  datatype Declaration = Declaration(field: Field, value: string)

  function DeclarationOf(rule: string): (d: Declaration)
  {
    Declaration(FieldOf(Property(rule)), Value(rule))
  }

  function Declarations(rules: seq<string>): (ds: seq<Declaration>)
  {
    seq(|rules|, i requires 0 <= i < |rules| => DeclarationOf(rules[i]))
  }

  /** The declaration assigns field `f`: it names it with a non-empty value, and
      for `background-image` the value mentions `gradient`.  An empty property
      names no field, so the switch's test for it needs no counterpart here. */
  predicate Declares(d: Declaration, f: Field) {
    f != Ignored && d.field == f && d.value != ""
    && (f == BackgroundImageField ==> Contains(d.value, "gradient"))
  }

  /** The value of the last declaration that assigns field `f`. */
  function LastDeclared(ds: seq<Declaration>, f: Field): (v: Option<string>)
    ensures v.Some? ==> v.value != ""
    ensures v.Some? && f == BackgroundImageField ==> Contains(v.value, "gradient")
  {
    if ds == [] then None
    else if Declares(ds[|ds| - 1], f) then Some(ds[|ds| - 1].value)
    else LastDeclared(ds[..|ds| - 1], f)
  }

  lemma LastDeclaredStep(ds: seq<Declaration>, d: Declaration, f: Field)
    ensures LastDeclared(ds + [d], f) == if Declares(d, f) then Some(d.value) else LastDeclared(ds, f)
  {
    assert (ds + [d])[..|ds|] == ds;
  }

  /** The parsers the switch hands a value to.  `parseCSS` uses `Standard`; the
      order of the rules and the switch do not depend on which parsers these are. */
  datatype Readers = Readers(
    length: PropValue -> PixelUnit,
    color: string -> PixelColor,
    gradient: string -> Option<PixelGradient>)

  const Standard := Readers(ParseUnit, ParseColor, ParseGradient)

  /** The `font-weight` case: the two keywords, else `parseInt(value) || 400`. */
  function FontWeightOf(v: string): (w: FontWeight)
    ensures v == "bold" <==> w == Bold
    ensures v == "normal" <==> w == Normal
  {
    if v == "bold" then Bold else if v == "normal" then Normal else Weight(Or(ParseInt(v), Int(400)))
  }

  /** `value.replace(/['"]/g, '')`. */
  function FontFamilyOf(v: string): (f: string)
    ensures '\'' !in f && '"' !in f
  {
    RemoveChars(v, {'\'', '"'})
  }

  function AllSides(u: PixelUnit): (s: Sides)
  {
    Sides(u, u, u, u)
  }

  function AsLength(rd: Readers, v: Option<string>): Option<PixelUnit> {
    if v.Some? then Some(rd.length(Str(v.value))) else None
  }

  function AsColor(rd: Readers, v: Option<string>): Option<PixelColor> {
    if v.Some? then Some(rd.color(v.value)) else None
  }

  function AsGradient(rd: Readers, v: Option<string>): Option<PixelGradient> {
    if v.Some? then rd.gradient(v.value) else None
  }

  function AsPadding(rd: Readers, v: Option<string>): Option<Sides> {
    if v.Some? then Some(AllSides(rd.length(Str(v.value)))) else None
  }

  function AsFamily(v: Option<string>): Option<string> {
    if v.Some? then Some(FontFamilyOf(v.value)) else None
  }

  function AsWeight(v: Option<string>): Option<FontWeight> {
    if v.Some? then Some(FontWeightOf(v.value)) else None
  }

  function AsAlign(v: Option<string>): Option<PropValue> {
    if v.Some? then Some(Str(v.value)) else None
  }

  /** What a declaration list sets, field by field: each field comes from the
      last rule that assigns it, and `border` is never set. */
  function StyleOf(rd: Readers, rules: seq<Declaration>): (s: PixelStyle)
    ensures s.border == None
    ensures s.padding.Some? ==> LastDeclared(rules, PaddingField).Some? && var p := s.padding.value;
      p.top == p.right == p.bottom == p.left == rd.length(Str(LastDeclared(rules, PaddingField).value))
  {
    PixelStyle(
      width := AsLength(rd, LastDeclared(rules, WidthField)),
      height := AsLength(rd, LastDeclared(rules, HeightField)),
      padding := AsPadding(rd, LastDeclared(rules, PaddingField)),
      backgroundColor := AsColor(rd, LastDeclared(rules, BackgroundColorField)),
      backgroundImage := AsGradient(rd, LastDeclared(rules, BackgroundImageField)),
      border := None,
      borderRadius := AsLength(rd, LastDeclared(rules, BorderRadiusField)),
      color := AsColor(rd, LastDeclared(rules, ColorField)),
      fontSize := AsLength(rd, LastDeclared(rules, FontSizeField)),
      fontFamily := AsFamily(LastDeclared(rules, FontFamilyField)),
      fontWeight := AsWeight(LastDeclared(rules, FontWeightField)),
      textAlign := AsAlign(LastDeclared(rules, TextAlignField)))
  }

  /** The style `parseCSS` builds from a list of rules. */
  function ParsedStyle(rules: seq<string>): PixelStyle {
    StyleOf(Standard, Declarations(rules))
  }

  /** One declaration's effect on the style assembled so far. */
  function Assign(rd: Readers, style: PixelStyle, d: Declaration): PixelStyle {
    if d.value == "" then style
    else match d.field
      case WidthField => style.(width := Some(rd.length(Str(d.value))))
      case HeightField => style.(height := Some(rd.length(Str(d.value))))
      case BackgroundColorField => style.(backgroundColor := Some(rd.color(d.value)))
      case BackgroundImageField =>
        if Contains(d.value, "gradient") then style.(backgroundImage := rd.gradient(d.value)) else style
      case ColorField => style.(color := Some(rd.color(d.value)))
      case FontSizeField => style.(fontSize := Some(rd.length(Str(d.value))))
      case FontFamilyField => style.(fontFamily := Some(FontFamilyOf(d.value)))
      case FontWeightField => style.(fontWeight := Some(FontWeightOf(d.value)))
      case TextAlignField => style.(textAlign := Some(Str(d.value)))
      case BorderRadiusField => style.(borderRadius := Some(rd.length(Str(d.value))))
      case PaddingField => style.(padding := Some(AllSides(rd.length(Str(d.value)))))
      case Ignored => style
  }

  /** Assigning declarations one by one leaves each field with its last declaration. */
  lemma StyleStep(rd: Readers, ds: seq<Declaration>, d: Declaration)
    ensures StyleOf(rd, ds + [d]) == Assign(rd, StyleOf(rd, ds), d)
  {
    LastDeclaredStep(ds, d, WidthField);
    LastDeclaredStep(ds, d, HeightField);
    LastDeclaredStep(ds, d, BackgroundColorField);
    LastDeclaredStep(ds, d, BackgroundImageField);
    LastDeclaredStep(ds, d, ColorField);
    LastDeclaredStep(ds, d, FontSizeField);
    LastDeclaredStep(ds, d, FontFamilyField);
    LastDeclaredStep(ds, d, FontWeightField);
    LastDeclaredStep(ds, d, TextAlignField);
    LastDeclaredStep(ds, d, BorderRadiusField);
    LastDeclaredStep(ds, d, PaddingField);
  }

  lemma DeclarationsStep(rules: seq<string>, i: nat)
    requires i < |rules|
    ensures Declarations(rules[..i + 1]) == Declarations(rules[..i]) + [DeclarationOf(rules[i])]
  {
    var a, b := Declarations(rules[..i + 1]), Declarations(rules[..i]) + [DeclarationOf(rules[i])];
    assert |a| == |b|;
    forall k | 0 <= k < |a|
      ensures a[k] == b[k]
    {
      assert rules[..i + 1][k] == if k < i then rules[..i][k] else rules[i];
    }
  }

  /** The switch of `parseCSS` on one rule's property and value. */
  method Declare(rd: Readers, style0: PixelStyle, property: string, value: string) returns (style: PixelStyle)
    ensures style == Assign(rd, style0, Declaration(FieldOf(property), value))
  {
    style := style0;
    if property != "" && value != "" {
      match FieldOf(property)
      case WidthField =>
        style := style.(width := Some(rd.length(Str(value))));
      case HeightField =>
        style := style.(height := Some(rd.length(Str(value))));
      case BackgroundColorField =>
        style := style.(backgroundColor := Some(rd.color(value)));
      case BackgroundImageField =>
        if Contains(value, "gradient") {
          style := style.(backgroundImage := rd.gradient(value));
        }
      case ColorField =>
        style := style.(color := Some(rd.color(value)));
      case FontSizeField =>
        style := style.(fontSize := Some(rd.length(Str(value))));
      case FontFamilyField =>
        style := style.(fontFamily := Some(FontFamilyOf(value)));
      case FontWeightField =>
        if value == "bold" {
          style := style.(fontWeight := Some(Bold));
        } else if value == "normal" {
          style := style.(fontWeight := Some(Normal));
        } else {
          style := style.(fontWeight := Some(Weight(Or(ParseInt(value), Int(400)))));
        }
      case TextAlignField =>
        style := style.(textAlign := Some(Str(value)));
      case BorderRadiusField =>
        style := style.(borderRadius := Some(rd.length(Str(value))));
      case PaddingField =>
        var paddingValue := rd.length(Str(value));
        style := style.(padding := Some(Sides(paddingValue, paddingValue, paddingValue, paddingValue)));
      case Ignored =>
    }
  }

  /** The loop of `parseCSS` over the rules, with the value parsers `rd`. */
  method ParseRules(rules: seq<string>, rd: Readers) returns (style: PixelStyle)
    ensures style == StyleOf(rd, Declarations(rules))
  {
    style := EmptyStyle;
    for i := 0 to |rules|
      invariant style == StyleOf(rd, Declarations(rules[..i]))
    {
      var rule := rules[i];
      var property, value := Property(rule), Value(rule);
      RuleStep(rd, rules, i, style);
      style := Declare(rd, style, property, value);
    }
    assert rules[..|rules|] == rules;
  }

  /** One more rule assigns its declaration to the style of the rules before it. */
  lemma RuleStep(rd: Readers, rules: seq<string>, i: nat, style: PixelStyle)
    requires i < |rules| && style == StyleOf(rd, Declarations(rules[..i]))
    ensures Assign(rd, style, Declaration(FieldOf(Property(rules[i])), Value(rules[i]))) ==
      StyleOf(rd, Declarations(rules[..i + 1]))
  {
    DeclarationsStep(rules, i);
    StyleStep(rd, Declarations(rules[..i]), DeclarationOf(rules[i]));
  }

  /** `parseCSS(cssString)`. */
  method ParseCSS(css: string) returns (style: PixelStyle)
    ensures style == ParsedStyle(Rules(css))
  {
    style := ParseRules(Rules(css), Standard);
  }

  /** The rules of two lists joined by `;` are the rules of each, in order. */
  lemma RulesConcat(a: string, b: string)
    ensures Rules(a + ";" + b) == Rules(a) + Rules(b)
  {
    SplitConcat(a, b, ';');
    TrimAllConcat(Split(a, ';'), Split(b, ';'));
    NonEmptyConcat(TrimAll(Split(a, ';')), TrimAll(Split(b, ';')));
  }

  lemma TrimAllConcat(xs: seq<string>, ys: seq<string>)
    ensures TrimAll(xs + ys) == TrimAll(xs) + TrimAll(ys)
  {
    var l, a, b := TrimAll(xs + ys), TrimAll(xs), TrimAll(ys);
    forall i | 0 <= i < |l| ensures l[i] == (a + b)[i] {
      if i < |xs| {
        calc { l[i]; Trim((xs + ys)[i]); { assert (xs + ys)[i] == xs[i]; } Trim(xs[i]); a[i]; }
      } else {
        calc { l[i]; Trim((xs + ys)[i]); { assert (xs + ys)[i] == ys[i - |xs|]; } Trim(ys[i - |xs|]); b[i - |xs|]; }
      }
    }
  }

  lemma {:induction false} NonEmptyConcat(xs: seq<string>, ys: seq<string>)
    ensures NonEmpty(xs + ys) == NonEmpty(xs) + NonEmpty(ys)
  {
    if xs != [] {
      assert (xs + ys)[0] == xs[0] && (xs + ys)[1..] == xs[1..] + ys;
      NonEmptyConcat(xs[1..], ys);
    } else {
      assert xs + ys == ys;
    }
  }

  lemma DeclarationsConcat(xs: seq<string>, ys: seq<string>)
    ensures Declarations(xs + ys) == Declarations(xs) + Declarations(ys)
  {
    var l, r := Declarations(xs + ys), Declarations(xs) + Declarations(ys);
    forall i | 0 <= i < |l| ensures l[i] == r[i] {
      if i < |xs| { assert (xs + ys)[i] == xs[i]; } else { assert (xs + ys)[i] == ys[i - |xs|]; }
    }
  }

  /** A field takes the value of the later list when that list assigns it, and
      keeps the earlier list's value otherwise. */
  lemma {:induction false} LaterDeclarationsWin(ds: seq<Declaration>, es: seq<Declaration>, f: Field)
    ensures LastDeclared(ds + es, f) ==
      if LastDeclared(es, f).Some? then LastDeclared(es, f) else LastDeclared(ds, f)
    decreases |es|
  {
    if es == [] {
      assert ds + es == ds;
    } else {
      var init, last := es[..|es| - 1], es[|es| - 1];
      assert es == init + [last];
      assert ds + es == (ds + init) + [last];
      LastDeclaredStep(ds + init, last, f);
      LastDeclaredStep(init, last, f);
      LaterDeclarationsWin(ds, init, f);
    }
  }

  /** In `a; b`, a field that `b` assigns comes from `b`; any other from `a`. */
  lemma LaterRulesWin(a: string, b: string, f: Field)
    ensures var later := LastDeclared(Declarations(Rules(b)), f);
      LastDeclared(Declarations(Rules(a + ";" + b)), f) ==
        if later.Some? then later else LastDeclared(Declarations(Rules(a)), f)
  {
    RulesConcat(a, b);
    DeclarationsConcat(Rules(a), Rules(b));
    LaterDeclarationsWin(Declarations(Rules(a)), Declarations(Rules(b)), f);
  }

  /** A declaration that assigns no field, such as one with an empty value, an
      unknown property or a `background-image` without a gradient, changes nothing. */
  lemma IgnoredDeclaration(rd: Readers, ds: seq<Declaration>, d: Declaration)
    requires forall f :: !Declares(d, f)
    ensures StyleOf(rd, ds + [d]) == StyleOf(rd, ds)
  {
    StyleStep(rd, ds, d);
    assert !Declares(d, d.field);
  }

  /** `background`, `border`, `margin` and an empty property name no field. */
  lemma UnknownProperties()
    ensures FieldOf("background") == Ignored
    ensures FieldOf("border") == Ignored
    ensures FieldOf("margin") == Ignored
    ensures FieldOf("") == Ignored
  {
    assert "background" != "background-color" by { assert |"background"| != |"background-color"|; }
  }

  /** A list of no rules, such as the empty text, sets no field. */
  lemma EmptyCss(rd: Readers)
    ensures Rules("") == [] && Rules(";") == []
    ensures StyleOf(rd, Declarations([])) == EmptyStyle
  {
    NoRules();
    OneEmptyRule();
  }

  lemma NoRules()
    ensures Rules("") == []
  {
    assert Split("", ';') == [""];
    assert Trim("") == "";
    assert TrimAll([""]) == [""];
  }

  lemma OneEmptyRule()
    ensures Rules(";") == []
  {
    var s := ";";
    assert s[0] == ';' && s[1..] == [];
    assert Split(s, ';') == [""] + Split("", ';');
    assert Split(s, ';') == ["", ""];
    assert Trim("") == "";
    assert TrimAll(["", ""]) == ["", ""];
    assert NonEmpty(["", ""]) == NonEmpty([""]);
  }

  // ----- cssPropertiesToPixelStyle -----

  /** The property is present with a truthy value. */
  predicate Given(props: map<string, PropValue>, key: string) {
    key in props && PropTruthy(props[key])
  }

  /** The keys whose value the code calls a string method on (`startsWith`,
      `includes`, `replace`), in the order it reaches them. */
  const StringKeys := ["backgroundColor", "backgroundImage", "color", "fontFamily"]

  /** A value the code treats as text is a number: the string method is missing and
      the call throws a TypeError. */
  predicate NotText(props: map<string, PropValue>, key: string) {
    Given(props, key) && props[key].Number?
  }

  /** Whether `Number.prototype.toString` prints the number in exponent form
      (`1e+21`, `2.5e-7`): a magnitude of at least 10^21, or below 10^-6 and
      not zero. */
  predicate ExponentForm(v: real) {
    var a := if v >= 0.0 then v else -v;
    a >= 1000000000000000000000.0 || (0.0 < a < 0.000001)
  }

  /** The first significant digit of a positive number. */
  function LeadingDigit(x: real): (d: int)
    requires x > 0.0
    ensures 1 <= d <= 9
    decreases if x >= 10.0 then Floor(x) else 0, if x < 1.0 then Floor(1.0 / x) else 0
  {
    if x >= 10.0 then LeadingDigit(x / 10.0)
    else if x < 1.0 then
      assert 1.0 / (x * 10.0) == (1.0 / x) / 10.0;
      LeadingDigit(x * 10.0)
    else Floor(x)
  }

  /** `parseInt(value.toString())` for a number. Printed plainly, the number
      is read up to its point: the integer part, towards zero. Printed in
      exponent form, `parseInt` stops at the point or the `e`: only the first
      significant digit is read, with the sign. NaN and the infinities print
      as words, which give NaN. */
  function NumberWeight(n: Num): (w: Num)
    ensures !n.Fin? ==> w == NaN
    ensures n.Fin? && !ExponentForm(n.v) ==>
      (w.Fin? && w.v.Floor as real == w.v &&
       (n.v >= 0.0 ==> w.v <= n.v < w.v + 1.0) && (n.v < 0.0 ==> w.v - 1.0 < n.v <= w.v))
    ensures n.Fin? && ExponentForm(n.v) ==>
      (w.Fin? && (n.v > 0.0 ==> 1.0 <= w.v <= 9.0) && (n.v < 0.0 ==> -9.0 <= w.v <= -1.0))
  {
    match n
    case Fin(v) =>
      if ExponentForm(v) then Int(if v > 0.0 then LeadingDigit(v) else -LeadingDigit(-v))
      else Int(if v >= 0.0 then Floor(v) else -Floor(-v))
    case _ => NaN
  }

  /** A weight printed in exponent form is read as its first digit:
      `1e-7` and `1e21` both give 1, and `-2e22` gives -2. */
  lemma ExponentWeights()
    ensures NumberWeight(Fin(0.0000001)) == Int(1)
    ensures NumberWeight(Fin(1000000000000000000000.0)) == Int(1)
    ensures NumberWeight(Fin(-20000000000000000000000.0)) == Int(-2)
    ensures WeightOf(Number(Fin(0.0000001))) == Weight(Int(1))
  {
    assert Shifted(1.0, 7) == 10000000.0;
    assert Shifted(10000000.0, 7) == 100000000000000.0;
    assert Shifted(100000000000000.0, 7) == 1000000000000000000000.0;
    ShiftedAdd(1.0, 7, 7);
    ShiftedAdd(1.0, 14, 7);
    LeadingDigitShifted(1.0, 21);
    assert Shifted(2.0, 8) == 200000000.0;
    assert Shifted(200000000.0, 7) == 2000000000000000.0;
    assert Shifted(2000000000000000.0, 7) == 20000000000000000000000.0;
    ShiftedAdd(2.0, 8, 7);
    ShiftedAdd(2.0, 15, 7);
    LeadingDigitShifted(2.0, 22);
  }

  /** `x` with its decimal point moved `k` places to the right. */
  function Shifted(x: real, k: nat): (r: real)
    ensures x >= 1.0 ==> r >= 1.0
  {
    if k == 0 then x else Shifted(x, k - 1) * 10.0
  }

  lemma {:induction false} ShiftedAdd(x: real, a: nat, b: nat)
    ensures Shifted(x, a + b) == Shifted(Shifted(x, a), b)
  {
    if b > 0 {
      ShiftedAdd(x, a, b - 1);
    }
  }

  /** Moving the point to the right keeps the first significant digit. */
  lemma {:induction false} LeadingDigitShifted(x: real, k: nat)
    requires x >= 1.0
    ensures LeadingDigit(Shifted(x, k)) == LeadingDigit(x)
  {
    if k > 0 {
      LeadingDigitShifted(x, k - 1);
      LeadingDigitTimesTen(Shifted(x, k - 1));
    }
  }

  /** Ten times a number of at least 1 leads with the same digit. */
  lemma LeadingDigitTimesTen(x: real)
    requires x >= 1.0
    ensures LeadingDigit(x * 10.0) == LeadingDigit(x)
  {
    assert (x * 10.0) / 10.0 == x;
  }

  /** The `fontWeight` branch for a truthy value. */
  function WeightOf(v: PropValue): FontWeight {
    match v
    case Str(s) => FontWeightOf(s)
    case Number(n) => Weight(Or(NumberWeight(n), Int(400)))
  }

  function GivenLength(rd: Readers, props: map<string, PropValue>, key: string): Option<PixelUnit> {
    if Given(props, key) then Some(rd.length(props[key])) else None
  }

  function GivenColor(rd: Readers, props: map<string, PropValue>, key: string): Option<PixelColor>
    requires !NotText(props, key)
  {
    if Given(props, key) then Some(rd.color(props[key].s)) else None
  }

  function GivenImage(rd: Readers, props: map<string, PropValue>): Option<PixelGradient>
    requires !NotText(props, "backgroundImage")
  {
    if Given(props, "backgroundImage") && Contains(props["backgroundImage"].s, "gradient")
    then rd.gradient(props["backgroundImage"].s) else None
  }

  function GivenFamily(props: map<string, PropValue>): Option<string>
    requires !NotText(props, "fontFamily")
  {
    if Given(props, "fontFamily") then Some(FontFamilyOf(props["fontFamily"].s)) else None
  }

  function GivenWeight(props: map<string, PropValue>): Option<FontWeight> {
    if Given(props, "fontWeight") then Some(WeightOf(props["fontWeight"])) else None
  }

  function GivenPadding(rd: Readers, props: map<string, PropValue>): Option<Sides> {
    if Given(props, "padding") then Some(AllSides(rd.length(props["padding"]))) else None
  }

  function GivenValue(props: map<string, PropValue>, key: string): Option<PropValue> {
    if Given(props, key) then Some(props[key]) else None
  }

  /** The first key in `StringKeys` that holds a truthy number. */
  function FirstNotText(props: map<string, PropValue>): (k: Option<string>)
    ensures k.Some? ==> k.value in StringKeys && NotText(props, k.value)
    ensures k.None? ==> forall key :: key in StringKeys ==> !NotText(props, key)
  {
    if NotText(props, "backgroundColor") then Some("backgroundColor")
    else if NotText(props, "backgroundImage") then Some("backgroundImage")
    else if NotText(props, "color") then Some("color")
    else if NotText(props, "fontFamily") then Some("fontFamily")
    else None
  }

  /** The style a props object converts to, or the TypeError of the first key
      in `StringKeys` that holds a number. */
  function PropsStyle(rd: Readers, props: map<string, PropValue>): (r: Result<PixelStyle>)
    ensures r.Ok? ==> r.value.border == None
  {
    var bad := FirstNotText(props);
    if bad.Some? then Err(bad.value)
    else
      Ok(PixelStyle(
        width := GivenLength(rd, props, "width"),
        height := GivenLength(rd, props, "height"),
        padding := GivenPadding(rd, props),
        backgroundColor := GivenColor(rd, props, "backgroundColor"),
        backgroundImage := GivenImage(rd, props),
        border := None,
        borderRadius := GivenLength(rd, props, "borderRadius"),
        color := GivenColor(rd, props, "color"),
        fontSize := GivenLength(rd, props, "fontSize"),
        fontFamily := GivenFamily(props),
        fontWeight := GivenWeight(props),
        textAlign := GivenValue(props, "textAlign")))
  }

  /** The chain of ifs of `cssPropertiesToPixelStyle`, with the value parsers `rd`. */
  method ConvertProps(props: map<string, PropValue>, rd: Readers) returns (r: Result<PixelStyle>)
    ensures r == PropsStyle(rd, props)
  {
    r := ConvertChecked(props, rd);
    if r.Err? {
      return;
    }
    CheckedKeys(rd, props, r.value);
    var style := ConvertUnchecked(props, rd, r.value);
    return Ok(style);
  }

  /** The ifs up to `fontFamily`, each of which may call a string method on
      a number and throw. */
  method ConvertChecked(props: map<string, PropValue>, rd: Readers) returns (r: Result<PixelStyle>)
    ensures r.Err? ==> r == PropsStyle(rd, props)
    ensures r.Ok? ==> (FirstNotText(props).None? &&
      r.value == EmptyStyle.(width := GivenLength(rd, props, "width"), height := GivenLength(rd, props, "height"),
        backgroundColor := GivenColor(rd, props, "backgroundColor"), backgroundImage := GivenImage(rd, props),
        color := GivenColor(rd, props, "color"), fontSize := GivenLength(rd, props, "fontSize"),
        fontFamily := GivenFamily(props)))
  {
    var style := EmptyStyle;
    if Given(props, "width") { style := style.(width := Some(rd.length(props["width"]))); }
    if Given(props, "height") { style := style.(height := Some(rd.length(props["height"]))); }
    if Given(props, "backgroundColor") {
      if props["backgroundColor"].Number? {
        assert FirstNotText(props) == Some("backgroundColor");
        return Err("backgroundColor");
      }
      style := style.(backgroundColor := Some(rd.color(props["backgroundColor"].s)));
    }
    assert style == EmptyStyle.(width := GivenLength(rd, props, "width"), height := GivenLength(rd, props, "height"),
      backgroundColor := GivenColor(rd, props, "backgroundColor"));
    ghost var s1 := style;
    if Given(props, "backgroundImage") {
      if props["backgroundImage"].Number? {
        assert FirstNotText(props) == Some("backgroundImage");
        return Err("backgroundImage");
      }
      if Contains(props["backgroundImage"].s, "gradient") {
        style := style.(backgroundImage := rd.gradient(props["backgroundImage"].s));
      }
    }
    assert style == s1.(backgroundImage := GivenImage(rd, props));
    ghost var s2 := style;
    if Given(props, "color") {
      if props["color"].Number? {
        assert FirstNotText(props) == Some("color");
        return Err("color");
      }
      style := style.(color := Some(rd.color(props["color"].s)));
    }
    if Given(props, "fontSize") { style := style.(fontSize := Some(rd.length(props["fontSize"]))); }
    assert style == s2.(color := GivenColor(rd, props, "color"), fontSize := GivenLength(rd, props, "fontSize"));
    ghost var s3 := style;
    if Given(props, "fontFamily") {
      if props["fontFamily"].Number? {
        assert FirstNotText(props) == Some("fontFamily");
        return Err("fontFamily");
      }
      style := style.(fontFamily := Some(FontFamilyOf(props["fontFamily"].s)));
    }
    assert style == s3.(fontFamily := GivenFamily(props));
    return Ok(style);
  }

  /** The keys up to `fontFamily` converted, and the rest still to come. */
  lemma CheckedKeys(rd: Readers, props: map<string, PropValue>, style: PixelStyle)
    requires FirstNotText(props).None?
    requires style == EmptyStyle.(width := GivenLength(rd, props, "width"), height := GivenLength(rd, props, "height"),
      backgroundColor := GivenColor(rd, props, "backgroundColor"), backgroundImage := GivenImage(rd, props),
      color := GivenColor(rd, props, "color"), fontSize := GivenLength(rd, props, "fontSize"),
      fontFamily := GivenFamily(props))
    ensures PropsStyle(rd, props) == Ok(style.(fontWeight := GivenWeight(props), textAlign := GivenValue(props, "textAlign"),
      borderRadius := GivenLength(rd, props, "borderRadius"), padding := GivenPadding(rd, props)))
  {
  }

  /** The ifs after `fontFamily`, none of which calls a string method. */
  method ConvertUnchecked(props: map<string, PropValue>, rd: Readers, style0: PixelStyle) returns (style: PixelStyle)
    requires style0.fontWeight == None && style0.textAlign == None
    requires style0.borderRadius == None && style0.padding == None
    ensures style == style0.(fontWeight := GivenWeight(props), textAlign := GivenValue(props, "textAlign"),
      borderRadius := GivenLength(rd, props, "borderRadius"), padding := GivenPadding(rd, props))
  {
    style := style0;
    if Given(props, "fontWeight") {
      var weight := props["fontWeight"];
      if weight == Str("bold") {
        style := style.(fontWeight := Some(Bold));
      } else if weight == Str("normal") {
        style := style.(fontWeight := Some(Normal));
      } else {
        var n := if weight.Str? then ParseInt(weight.s) else NumberWeight(weight.n);
        style := style.(fontWeight := Some(Weight(Or(n, Int(400)))));
      }
    }
    assert style.fontWeight == GivenWeight(props);
    if Given(props, "textAlign") { style := style.(textAlign := Some(props["textAlign"])); }
    if Given(props, "borderRadius") { style := style.(borderRadius := Some(rd.length(props["borderRadius"]))); }
    if Given(props, "padding") {
      var paddingValue := rd.length(props["padding"]);
      style := style.(padding := Some(Sides(paddingValue, paddingValue, paddingValue, paddingValue)));
    }
  }

  /** `cssPropertiesToPixelStyle(cssProps)`. */
  method CssPropertiesToPixelStyle(props: map<string, PropValue>) returns (r: Result<PixelStyle>)
    ensures r == PropsStyle(Standard, props)
    ensures r.Err? ==> r.error in StringKeys
  {
    r := ConvertProps(props, Standard);
    PropsFailure(Standard, props);
  }

  /** The conversion fails exactly when one of the keys read as text holds a truthy number. */
  lemma PropsFailure(rd: Readers, props: map<string, PropValue>)
    ensures PropsStyle(rd, props).Err? <==> exists k :: k in StringKeys && NotText(props, k)
    ensures PropsStyle(rd, props).Err? ==> PropsStyle(rd, props).error in StringKeys
  {
    if FirstNotText(props).Some? {
      var k := FirstNotText(props).value;
      assert k in StringKeys && NotText(props, k);
    }
  }

  /** The props object without `key`. */
  function Without(props: map<string, PropValue>, key: string): map<string, PropValue> {
    props - {key}
  }

  /** A key that is absent, empty, zero or NaN is skipped, as if it were not there. */
  lemma FalsyPropsSkipped(rd: Readers, props: map<string, PropValue>, key: string)
    requires key in props && !PropTruthy(props[key])
    ensures PropsStyle(rd, props) == PropsStyle(rd, Without(props, key))
  {
    var smaller := Without(props, key);
    assert forall k :: Given(props, k) <==> Given(smaller, k);
    assert forall k :: Given(props, k) ==> props[k] == smaller[k];
  }
}
