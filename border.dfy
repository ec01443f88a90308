/** Reading the border of an element out of its style map: `border-image`,
    the four corner radii and the width, style and colour of each side, each
    taken from the first of a list of properties that has a value. */
module Border {
  import opened Js
  import opened Text
  import opened NumText
  import opened Wrappers
  import opened CssUnit
  import opened StyleMaps
  import opened Parse

  datatype Side = Top | Right | Bottom | Left

  /** The sides in the order they are read and drawn. */
  const Sides: seq<Side> := [Top, Right, Bottom, Left]

  lemma SideListed(s: Side)
    ensures exists j :: 0 <= j < |Sides| && Sides[j] == s
  {
    match s
    case Top => assert Sides[0] == s;
    case Right => assert Sides[1] == s;
    case Bottom => assert Sides[2] == s;
    case Left => assert Sides[3] == s;
  }

  function PhysicalName(s: Side): string {
    match s
    case Top => "top"
    case Right => "right"
    case Bottom => "bottom"
    case Left => "left"
  }

  /** The flow-relative name of a side in a horizontal, left-to-right writing mode. */
  function LogicalName(s: Side): string {
    match s
    case Top => "block-start"
    case Right => "inline-end"
    case Bottom => "block-end"
    case Left => "inline-start"
  }

  datatype Corner = TopLeft | TopRight | BottomRight | BottomLeft

  const Corners: seq<Corner> := [TopLeft, TopRight, BottomRight, BottomLeft]

  lemma CornerListed(k: Corner)
    ensures exists j :: 0 <= j < |Corners| && Corners[j] == k
  {
    match k
    case TopLeft => assert Corners[0] == k;
    case TopRight => assert Corners[1] == k;
    case BottomRight => assert Corners[2] == k;
    case BottomLeft => assert Corners[3] == k;
  }

  function LogicalCorner(k: Corner): string {
    match k
    case TopLeft => "border-start-start-radius"
    case TopRight => "border-start-end-radius"
    case BottomRight => "border-end-end-radius"
    case BottomLeft => "border-end-start-radius"
  }

  function PhysicalCorner(k: Corner): string {
    match k
    case TopLeft => "border-top-left-radius"
    case TopRight => "border-top-right-radius"
    case BottomRight => "border-bottom-right-radius"
    case BottomLeft => "border-bottom-left-radius"
  }

  // ---------------------------------------------------------------------
  // Precedence

  /** `styleMap[k]?.[0]`: the first value of a property, if it has one. */
  function FirstValue(m: StyleMap, k: string): (r: Option<string>)
    ensures r.Some? <==> k in m && |m[k]| > 0
  {
    Nth(List(m, k), 0)
  }

  /** A value `||` skips: missing or the empty string. */
  predicate Blank(v: Option<string>) { v.None? || v.value == "" }

  /** `styleMap[k1]?.[0] || styleMap[k2]?.[0] || ... || fallback`. */
  function Cascade(m: StyleMap, keys: seq<string>, fallback: string): (r: string)
    ensures r == fallback || r != ""
  {
    if keys == [] then fallback
    else OrDefault(FirstValue(m, keys[0]), Cascade(m, keys[1..], fallback))
  }

  /** The cascade gives the first value of the first property whose first
      value is neither missing nor empty. */
  lemma {:induction false} CascadeFirst(m: StyleMap, keys: seq<string>, fallback: string, i: nat)
    requires i < |keys| && !Blank(FirstValue(m, keys[i]))
    requires forall j :: 0 <= j < i ==> Blank(FirstValue(m, keys[j]))
    ensures Cascade(m, keys, fallback) == FirstValue(m, keys[i]).value
  {
    if i > 0 {
      assert Blank(FirstValue(m, keys[0]));
      CascadeFirst(m, keys[1..], fallback, i - 1);
    }
  }

  /** When every property is missing or empty the cascade gives the fallback. */
  lemma {:induction false} CascadeFallback(m: StyleMap, keys: seq<string>, fallback: string)
    requires forall j :: 0 <= j < |keys| ==> Blank(FirstValue(m, keys[j]))
    ensures Cascade(m, keys, fallback) == fallback
  {
    if keys != [] {
      assert Blank(FirstValue(m, keys[0]));
      CascadeFallback(m, keys[1..], fallback);
    }
  }

  /** The three levels the border code reads, most specific first, and what
      the cascade gives at each. */
  lemma ThreeLevels(m: StyleMap, a: string, b: string, c: string, fallback: string)
    ensures var r := Cascade(m, [a, b, c], fallback);
      (!Blank(FirstValue(m, a)) ==> r == FirstValue(m, a).value) &&
      (Blank(FirstValue(m, a)) && !Blank(FirstValue(m, b)) ==> r == FirstValue(m, b).value) &&
      (Blank(FirstValue(m, a)) && Blank(FirstValue(m, b)) && !Blank(FirstValue(m, c)) ==>
        r == FirstValue(m, c).value) &&
      (Blank(FirstValue(m, a)) && Blank(FirstValue(m, b)) && Blank(FirstValue(m, c)) ==> r == fallback)
  {
    var keys := [a, b, c];
    if !Blank(FirstValue(m, a)) {
      CascadeFirst(m, keys, fallback, 0);
    } else if !Blank(FirstValue(m, b)) {
      CascadeFirst(m, keys, fallback, 1);
    } else if !Blank(FirstValue(m, c)) {
      CascadeFirst(m, keys, fallback, 2);
    } else {
      CascadeFallback(m, keys, fallback);
    }
  }

  // ---------------------------------------------------------------------
  // border-image

  /** Whether `r` is `values` completed to four sides the way CSS completes a
      box shorthand: the given values come first, a missing right copies the
      top, a missing bottom copies the top and a missing left copies the right. */
  predicate CompletesBox(values: seq<string>, r: seq<string>) {
    1 <= |values| <= 4 && |r| == 4 && r[..|values|] == values &&
    (|values| < 2 ==> r[1] == r[0]) &&
    (|values| < 3 ==> r[2] == r[0]) &&
    (|values| < 4 ==> r[3] == r[1])
  }

  /** `expandToFourValues`: one to four values completed to four sides, and
      four zeros for any other count. */
  function ExpandToFour(values: seq<string>): (r: seq<string>)
    ensures |r| == 4
    ensures 1 <= |values| <= 4 ==> CompletesBox(values, r)
    ensures !(1 <= |values| <= 4) ==> r == ["0", "0", "0", "0"]
  {
    if |values| == 1 then [values[0], values[0], values[0], values[0]]
    else if |values| == 2 then [values[0], values[1], values[0], values[1]]
    else if |values| == 3 then [values[0], values[1], values[2], values[1]]
    else if |values| == 4 then values
    else ["0", "0", "0", "0"]
  }

  /** The completion is the only one: any four values that complete the
      given ones the CSS way are the ones `expandToFourValues` returns. */
  lemma CompletionUnique(values: seq<string>, r: seq<string>)
    requires CompletesBox(values, r)
    ensures r == ExpandToFour(values)
  {
    var e := ExpandToFour(values);
    assert r[..|values|] == e[..|values|];
    forall k | 0 <= k < |values| ensures r[k] == e[k] {
      assert r[k] == r[..|values|][k];
      assert e[k] == e[..|values|][k];
    }
  }

  /** Completing four values again changes nothing. */
  lemma ExpandIdempotent(values: seq<string>)
    ensures ExpandToFour(ExpandToFour(values)) == ExpandToFour(values)
  {
  }

  datatype BorderImageParams = BorderImageParams(
    source: string, slice: seq<Num>, width: seq<Num>, outset: seq<Num>, repeat: string)

  /** `styleMap[k]?.[0]?.split(' ') || [d]`: a split always has at least one
      piece, so the default only replaces a missing first value. */
  function ValueParts(m: StyleMap, k: string, d: string): (r: seq<string>)
    ensures |r| >= 1
  {
    match FirstValue(m, k)
    case Some(v) => Split(v, ' ')
    case None => [d]
  }

  /** `.map(v => parseInt(v))`. */
  function ParseInts(xs: seq<string>): (r: seq<Num>)
  {
    seq(|xs|, i requires 0 <= i < |xs| => ParseInt(xs[i]))
  }

  /** The four integers of a `border-image-*` property. */
  function FourInts(m: StyleMap, k: string, d: string): (r: seq<Num>)
    ensures |r| == 4
  {
    ParseInts(ExpandToFour(ValueParts(m, k, d)))
  }

  /** A border image is given: its first source value is neither missing,
      empty nor `none`. */
  predicate HasBorderImage(m: StyleMap) {
    var s := FirstValue(m, "border-image-source");
    s.Some? && s.value != "" && s.value != "none"
  }

  /** `parseBorderImage`. */
  function ParseBorderImage(m: StyleMap): (r: Option<BorderImageParams>)
    ensures r.Some? <==> HasBorderImage(m)
    ensures r.Some? ==> r.value.source == FirstValue(m, "border-image-source").value
    ensures r.Some? ==> |r.value.slice| == 4 && |r.value.width| == 4 && |r.value.outset| == 4
    ensures r.Some? ==> r.value.repeat != ""
  {
    if !HasBorderImage(m) then None
    else
      Some(BorderImageParams(
        FirstValue(m, "border-image-source").value,
        FourInts(m, "border-image-slice", "0"),
        FourInts(m, "border-image-width", "1"),
        FourInts(m, "border-image-outset", "0"),
        OrDefault(FirstValue(m, "border-image-repeat"), "stretch")))
  }

  lemma ParseIntDigit(c: char)
    requires IsDigit(c)
    ensures ParseInt([c]) == Int(DigitWeight(c))
  {
    var d := [c];
    assert SpanSpace(d) == 0;
    assert TrimStart(d) == d;
    assert SignPrefix(d) == (false, d);
    IntegerThenText(d, []);
    assert d + [] == d;
    assert RadixValue(d, 10) == DigitWeight(c) by { assert d[..0] == []; }
  }

  /** With only a source given, the slices are 0, the widths 1, the outsets
      0 and the repeat mode `stretch`. */
  lemma BorderImageDefaults(m: StyleMap)
    requires HasBorderImage(m)
    requires "border-image-slice" !in m && "border-image-width" !in m
    requires "border-image-outset" !in m && "border-image-repeat" !in m
    ensures var p := ParseBorderImage(m).value;
      p.slice == [Int(0), Int(0), Int(0), Int(0)] && p.width == [Int(1), Int(1), Int(1), Int(1)] &&
      p.outset == [Int(0), Int(0), Int(0), Int(0)] && p.repeat == "stretch"
  {
    ParseIntDigit('0');
    ParseIntDigit('1');
    assert "0" == ['0'] && "1" == ['1'];
  }

  /** A slice text of one number applies to all four sides. */
  lemma OneSliceAllSides(m: StyleMap, v: string)
    requires HasBorderImage(m) && FirstValue(m, "border-image-slice") == Some(v) && ' ' !in v
    ensures var p := ParseBorderImage(m).value;
      p.slice == [ParseInt(v), ParseInt(v), ParseInt(v), ParseInt(v)]
  {
    SplitNoSeparator(v, ' ');
    assert ValueParts(m, "border-image-slice", "0") == [v];
    OneValueFour([v]);
    assert ParseBorderImage(m).value.slice == FourInts(m, "border-image-slice", "0");
  }

  /** One value read as four integers is the same integer four times. */
  lemma OneValueFour(xs: seq<string>)
    requires |xs| == 1
    ensures ParseInts(ExpandToFour(xs)) == [ParseInt(xs[0]), ParseInt(xs[0]), ParseInt(xs[0]), ParseInt(xs[0])]
  {
  }

  // ---------------------------------------------------------------------
  // Corner radii

  /** The keys read for a corner, most specific first. */
  function RadiusKeys(k: Corner): seq<string> { [LogicalCorner(k), PhysicalCorner(k), "border-radius"] }

  /** One entry of `parseBorderRadius`: the resolved length divided by the
      size of one canvas pixel. */
  function CornerRadius(m: StyleMap, k: Corner, c: UnitContext, unitPixel: Num): Num {
    Div(PixelUnit(Cascade(m, RadiusKeys(k), "0"), c), unitPixel)
  }

  /** The flow-relative longhand wins over the physical one, which wins over
      `border-radius`; without any the radius is 0. */
  lemma RadiusPrecedence(m: StyleMap, k: Corner, c: UnitContext, unitPixel: Num)
    ensures var r := CornerRadius(m, k, c, unitPixel);
      var a, b, s := FirstValue(m, LogicalCorner(k)), FirstValue(m, PhysicalCorner(k)), FirstValue(m, "border-radius");
      (!Blank(a) ==> r == Div(PixelUnit(a.value, c), unitPixel)) &&
      (Blank(a) && !Blank(b) ==> r == Div(PixelUnit(b.value, c), unitPixel)) &&
      (Blank(a) && Blank(b) && !Blank(s) ==> r == Div(PixelUnit(s.value, c), unitPixel)) &&
      (Blank(a) && Blank(b) && Blank(s) ==> r == Div(Fin(0.0), unitPixel))
  {
    ThreeLevels(m, LogicalCorner(k), PhysicalCorner(k), "border-radius", "0");
    ZeroLength(c);
  }

  /** A radius for every corner. */
  predicate AllCorners(r: map<Corner, Num>) { forall k: Corner :: k in r }

  /** The four corner radii of a style map. */
  function CornerRadii(m: StyleMap, c: UnitContext, unitPixel: Num): (r: map<Corner, Num>)
    ensures AllCorners(r)
  {
    var r := map[TopLeft := CornerRadius(m, TopLeft, c, unitPixel), TopRight := CornerRadius(m, TopRight, c, unitPixel),
                 BottomRight := CornerRadius(m, BottomRight, c, unitPixel), BottomLeft := CornerRadius(m, BottomLeft, c, unitPixel)];
    EveryCorner(r);
    r
  }

  lemma EveryCorner(r: map<Corner, Num>)
    requires TopLeft in r && TopRight in r && BottomRight in r && BottomLeft in r
    ensures AllCorners(r)
  {
    forall k: Corner ensures k in r {
      CornerListed(k);
    }
  }

  /** `parseBorderRadius`: the corners are filled in one after another. */
  method ParseBorderRadius(m: StyleMap, c: UnitContext, unitPixel: Num) returns (result: map<Corner, Num>)
    ensures AllCorners(result)
    ensures result == CornerRadii(m, c, unitPixel)
  {
    result := map[];
    for i := 0 to |Corners|
      invariant forall j :: 0 <= j < i ==> Corners[j] in result
      invariant forall k :: k in result ==> result[k] == CornerRadius(m, k, c, unitPixel)
    {
      var corner := Corners[i];
      result := result[corner := CornerRadius(m, corner, c, unitPixel)];
    }
    AreCornerRadii(result, m, c, unitPixel);
  }

  /** A map holding the radius of each listed corner is the map of radii. */
  lemma AreCornerRadii(r: map<Corner, Num>, m: StyleMap, c: UnitContext, unitPixel: Num)
    requires forall j :: 0 <= j < |Corners| ==> Corners[j] in r
    requires forall k :: k in r ==> r[k] == CornerRadius(m, k, c, unitPixel)
    ensures AllCorners(r) && r == CornerRadii(m, c, unitPixel)
  {
    var radii := CornerRadii(m, c, unitPixel);
    forall k | k in r ensures r[k] == radii[k] {
      RadiusAt(m, c, unitPixel, k);
    }
    FilledCorners(r, radii);
  }

  /** Each entry of the map of radii is that corner's radius. */
  lemma RadiusAt(m: StyleMap, c: UnitContext, unitPixel: Num, k: Corner)
    ensures CornerRadii(m, c, unitPixel)[k] == CornerRadius(m, k, c, unitPixel)
  {
    var tl, tr := CornerRadius(m, TopLeft, c, unitPixel), CornerRadius(m, TopRight, c, unitPixel);
    var br, bl := CornerRadius(m, BottomRight, c, unitPixel), CornerRadius(m, BottomLeft, c, unitPixel);
    assert CornerRadii(m, c, unitPixel) == map[TopLeft := tl, TopRight := tr, BottomRight := br, BottomLeft := bl];
    PickCorner(tl, tr, br, bl, k);
  }

  /** A lookup in a map with one entry per corner. */
  lemma PickCorner<T>(tl: T, tr: T, br: T, bl: T, k: Corner)
    ensures map[TopLeft := tl, TopRight := tr, BottomRight := br, BottomLeft := bl][k] ==
      match k case TopLeft => tl case TopRight => tr case BottomRight => br case BottomLeft => bl
  {
  }

  /** A map that agrees with a full corner map on every listed corner is
      that map. */
  lemma FilledCorners(r: map<Corner, Num>, full: map<Corner, Num>)
    requires AllCorners(full)
    requires forall j :: 0 <= j < |Corners| ==> Corners[j] in r
    requires forall k :: k in r ==> r[k] == full[k]
    ensures AllCorners(r) && r == full
  {
    forall k: Corner ensures k in r {
      CornerListed(k);
    }
    SameCorners(r, full);
  }

  /** Two corner maps that agree on every corner are the same map. */
  lemma SameCorners(a: map<Corner, Num>, b: map<Corner, Num>)
    requires AllCorners(a) && AllCorners(b)
    requires forall k: Corner :: a[k] == b[k]
    ensures a == b
  {
    assert a.Keys == b.Keys;
  }

  // ---------------------------------------------------------------------
  // Sides

  datatype BorderStyle = BorderStyle(width: Num, style: string, color: string)

  /** The keys read for one property of a side, most specific first. */
  function SideKeys(s: Side, suffix: string): seq<string> {
    ["border-" + LogicalName(s) + suffix, "border-" + PhysicalName(s) + suffix, "border" + suffix]
  }

  /** `getBorderWidth`: the resolved width divided by the size of one canvas pixel. */
  function SideWidth(m: StyleMap, s: Side, c: UnitContext, unitPixel: Num): Num {
    Div(PixelUnit(Cascade(m, SideKeys(s, "-width"), "0"), c), unitPixel)
  }

  /** `getBorderStyle`. */
  function SideStyle(m: StyleMap, s: Side): (r: string)
    ensures r != ""
  {
    Cascade(m, SideKeys(s, "-style"), "none")
  }

  /** `getBorderColor`. */
  function SideColor(m: StyleMap, s: Side): (r: string)
    ensures r != ""
  {
    Cascade(m, SideKeys(s, "-color"), "currentcolor")
  }

  function SideBorder(m: StyleMap, s: Side, c: UnitContext, unitPixel: Num): BorderStyle {
    BorderStyle(SideWidth(m, s, c, unitPixel), SideStyle(m, s), SideColor(m, s))
  }

  /** The width of a side: the flow-relative longhand wins over the physical
      one, which wins over `border-width`; without any the width is 0. */
  lemma SideWidthPrecedence(m: StyleMap, s: Side, c: UnitContext, unitPixel: Num)
    ensures var w := SideWidth(m, s, c, unitPixel);
      var a := FirstValue(m, "border-" + LogicalName(s) + "-width");
      var b := FirstValue(m, "border-" + PhysicalName(s) + "-width");
      var d := FirstValue(m, "border-width");
      (!Blank(a) ==> w == Div(PixelUnit(a.value, c), unitPixel)) &&
      (Blank(a) && !Blank(b) ==> w == Div(PixelUnit(b.value, c), unitPixel)) &&
      (Blank(a) && Blank(b) && !Blank(d) ==> w == Div(PixelUnit(d.value, c), unitPixel)) &&
      (Blank(a) && Blank(b) && Blank(d) ==> w == Div(Fin(0.0), unitPixel))
  {
    var a, b := "border-" + LogicalName(s) + "-width", "border-" + PhysicalName(s) + "-width";
    assert "border" + "-width" == "border-width";
    assert SideKeys(s, "-width") == [a, b, "border-width"];
    ThreeLevels(m, a, b, "border-width", "0");
    ZeroLength(c);
  }

  /** The style of a side, by the same precedence, `none` without any. */
  lemma SideStylePrecedence(m: StyleMap, s: Side)
    ensures var a := FirstValue(m, "border-" + LogicalName(s) + "-style");
      var b := FirstValue(m, "border-" + PhysicalName(s) + "-style");
      var d := FirstValue(m, "border-style");
      (!Blank(a) ==> SideStyle(m, s) == a.value) &&
      (Blank(a) && !Blank(b) ==> SideStyle(m, s) == b.value) &&
      (Blank(a) && Blank(b) && !Blank(d) ==> SideStyle(m, s) == d.value) &&
      (Blank(a) && Blank(b) && Blank(d) ==> SideStyle(m, s) == "none")
  {
    assert "border" + "-style" == "border-style";
    ThreeLevels(m, "border-" + LogicalName(s) + "-style", "border-" + PhysicalName(s) + "-style",
      "border" + "-style", "none");
  }

  /** The colour of a side, by the same precedence, `currentcolor` without any. */
  lemma SideColorPrecedence(m: StyleMap, s: Side)
    ensures var a := FirstValue(m, "border-" + LogicalName(s) + "-color");
      var b := FirstValue(m, "border-" + PhysicalName(s) + "-color");
      var d := FirstValue(m, "border-color");
      (!Blank(a) ==> SideColor(m, s) == a.value) &&
      (Blank(a) && !Blank(b) ==> SideColor(m, s) == b.value) &&
      (Blank(a) && Blank(b) && !Blank(d) ==> SideColor(m, s) == d.value) &&
      (Blank(a) && Blank(b) && Blank(d) ==> SideColor(m, s) == "currentcolor")
  {
    assert "border" + "-color" == "border-color";
    ThreeLevels(m, "border-" + LogicalName(s) + "-color", "border-" + PhysicalName(s) + "-color",
      "border" + "-color", "currentcolor");
  }

  /** A border for every side. */
  predicate AllSides(b: map<Side, BorderStyle>) { forall s: Side :: s in b }

  /** The four sides of a style map. */
  function SideBorders(m: StyleMap, c: UnitContext, unitPixel: Num): (r: map<Side, BorderStyle>)
    ensures AllSides(r)
  {
    var r := map[Top := SideBorder(m, Top, c, unitPixel), Right := SideBorder(m, Right, c, unitPixel),
                 Bottom := SideBorder(m, Bottom, c, unitPixel), Left := SideBorder(m, Left, c, unitPixel)];
    EverySide(r);
    r
  }

  lemma EverySide(r: map<Side, BorderStyle>)
    requires Top in r && Right in r && Bottom in r && Left in r
    ensures AllSides(r)
  {
    forall s: Side ensures s in r {
      SideListed(s);
    }
  }

  /** `parseBorderStyles`: the sides are filled in one after another. */
  method ParseBorderStyles(m: StyleMap, c: UnitContext, unitPixel: Num) returns (result: map<Side, BorderStyle>)
    ensures AllSides(result) && forall s: Side :: result[s] == SideBorder(m, s, c, unitPixel)
    ensures result == SideBorders(m, c, unitPixel)
  {
    result := map[];
    for i := 0 to |Sides|
      invariant forall j :: 0 <= j < i ==> Sides[j] in result
      invariant forall s :: s in result ==> result[s] == SideBorder(m, s, c, unitPixel)
    {
      var dir := Sides[i];
      result := result[dir := SideBorder(m, dir, c, unitPixel)];
    }
    forall s: Side ensures s in result {
      SideListed(s);
    }
    AreSideBorders(result, m, c, unitPixel);
  }

  lemma AreSideBorders(r: map<Side, BorderStyle>, m: StyleMap, c: UnitContext, unitPixel: Num)
    requires AllSides(r) && forall s: Side :: r[s] == SideBorder(m, s, c, unitPixel)
    ensures r == SideBorders(m, c, unitPixel)
  {
    SameSides(r, SideBorders(m, c, unitPixel));
  }

  /** Two side maps that agree on every side are the same map. */
  lemma SameSides(a: map<Side, BorderStyle>, b: map<Side, BorderStyle>)
    requires AllSides(a) && AllSides(b)
    requires forall s: Side :: a[s] == b[s]
    ensures a == b
  {
    assert a.Keys == b.Keys;
  }
}
