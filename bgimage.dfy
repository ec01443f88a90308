/** A `url(...)` background layer of the newer renderer: the size and position
    of the image on the canvas, and the tiles each `background-repeat` mode
    draws.  Loading the picture is outside the model: its natural size, or its
    failure to load, is a parameter. */
module BackgroundImage {
  import opened Js
  import opened Text
  import opened NumText
  import opened Wrappers
  import opened Canvas2D
  import opened Patterns
  import opened BackgroundLayers

  datatype Size = Size(width: Num, height: Num)

  datatype Position = Position(x: Num, y: Num)

  predicate FiniteSize(s: Size) { s.width.Fin? && s.height.Fin? }

  // ---------------------------------------------------------------------
  // background-size

  /** `calculateCoverSize`: the image scaled, keeping its ratio, to the
      smallest size that covers the container. */
  function CoverSize(image: Size, container: Size): Size {
    var imageRatio := Div(image.width, image.height);
    var containerRatio := Div(container.width, container.height);
    if Less(imageRatio, containerRatio) then Size(container.width, Div(container.width, imageRatio))
    else Size(Mul(container.height, imageRatio), container.height)
  }

  /** `calculateContainSize`: the image scaled, keeping its ratio, to the
      largest size that fits in the container. */
  function ContainSize(image: Size, container: Size): Size {
    var imageRatio := Div(image.width, image.height);
    var containerRatio := Div(container.width, container.height);
    if Less(imageRatio, containerRatio) then Size(Mul(container.height, imageRatio), container.height)
    else Size(container.width, Div(container.width, imageRatio))
  }

  lemma MulStrict(a: real, b: real, c: real)
    requires a < b && c > 0.0
    ensures a * c < b * c
  {
  }

  lemma MulCancel(a: real, b: real, c: real)
    requires c > 0.0 && a * c <= b * c
    ensures a <= b
  {
  }

  /** A ratio of two positive numbers, multiplied back. */
  lemma RatioTimes(x: real, y: real)
    requires x > 0.0 && y > 0.0
    ensures x / y > 0.0 && (x / y) * y == x
  {
  }

  /** Cover keeps the image's ratio; both sides are at least the container's,
      and one of them equals it. */
  lemma CoverFits(iw: real, ih: real, cw: real, ch: real)
    requires iw > 0.0 && ih > 0.0 && cw > 0.0 && ch > 0.0
    ensures var s := CoverSize(Size(Fin(iw), Fin(ih)), Size(Fin(cw), Fin(ch)));
      FiniteSize(s) && s.width.v >= cw && s.height.v >= ch &&
      (s.width.v == cw || s.height.v == ch) && s.width.v * ih == s.height.v * iw
  {
    var r, q := iw / ih, cw / ch;
    RatioTimes(iw, ih);
    RatioTimes(cw, ch);
    if r < q {
      var height := cw / r;
      RatioTimes(cw, r);
      MulStrict(r, q, ch);
      assert ch * r < cw;
      MulCancel(ch, height, r);
      assert cw * ih == height * iw by {
        calc {
          height * iw;
          height * (r * ih);
          (height * r) * ih;
          cw * ih;
        }
      }
    } else {
      var width := ch * r;
      MulCancel(q, r, ch);
      assert q * ch <= r * ch;
      assert width * ih == ch * iw by {
        calc {
          width * ih;
          ch * (r * ih);
          ch * iw;
        }
      }
    }
  }

  /** Contain keeps the image's ratio; both sides are at most the container's,
      and one of them equals it. */
  lemma ContainFits(iw: real, ih: real, cw: real, ch: real)
    requires iw > 0.0 && ih > 0.0 && cw > 0.0 && ch > 0.0
    ensures var s := ContainSize(Size(Fin(iw), Fin(ih)), Size(Fin(cw), Fin(ch)));
      FiniteSize(s) && s.width.v <= cw && s.height.v <= ch &&
      (s.width.v == cw || s.height.v == ch) && s.width.v * ih == s.height.v * iw
  {
    var r, q := iw / ih, cw / ch;
    RatioTimes(iw, ih);
    RatioTimes(cw, ch);
    if r < q {
      var width := ch * r;
      MulStrict(r, q, ch);
      assert width * ih == ch * iw by {
        calc {
          width * ih;
          ch * (r * ih);
          ch * iw;
        }
      }
    } else {
      var height := cw / r;
      RatioTimes(cw, r);
      assert q * ch <= r * ch by { MulStrictOrEqual(q, r, ch); }
      assert height * r == cw;
      MulCancel(height, ch, r);
      assert cw * ih == height * iw by {
        calc {
          height * iw;
          height * (r * ih);
          (height * r) * ih;
          cw * ih;
        }
      }
    }
  }

  lemma MulStrictOrEqual(a: real, b: real, c: real)
    requires a <= b && c > 0.0
    ensures a * c <= b * c
  {
  }

  /** `parseBackgroundDimension` for one axis: `auto` keeps the image's own
      size, a percentage is of the container, anything else is the number
      parseFloat reads, and text that is not a number throws.  (The checks for
      a non-string value and for negative sizes cannot fail here: the values
      come from `parseSize`, the sizes from the canvas and the picture.) */
  function Dimension(value: string, container: nat, original: nat): (r: Result<Num>)
    ensures r.Err? ==> ParseFloat(value) == NaN
  {
    if value == "auto" then Ok(Int(original))
    else if EndsWith(value, "%") then Ok(Div(Mul(Int(container), ParseFloat(value)), Int(100)))
    else
      var size := ParseFloat(value);
      if size == NaN then Err("Error") else Ok(size)
  }

  /** A word that does not start like a number reads as NaN. */
  lemma WordNotNumber(s: string)
    requires s != [] && IsLowerAlpha(s[0])
    ensures ParseFloat(s) == NaN
  {
    assert SpanSpace(s) == 0;
    assert TrimStart(s) == s;
    assert !StartsWith(s, "Infinity") by { assert s[0] != 'I'; }
    assert SpanDigits(s) == 0;
  }

  /** The three kinds of dimension: `auto`, `N%` and `N` followed by a unit;
      a keyword other than `auto` throws. */
  lemma DimensionRules(d: string, u: string, word: string, container: nat, original: nat)
    requires |d| > 0 && AllDigits(d)
    requires u == [] || (IsLowerAlpha(u[0]) && u[0] != 'e' && u[0] != 'x' && u[|u| - 1] != '%')
    requires word != [] && word != "auto" && IsLowerAlpha(word[0]) && word[|word| - 1] != '%'
    ensures Dimension("auto", container, original) == Ok(Int(original))
    ensures Dimension(d + "%", container, original) ==
      Ok(Div(Mul(Int(container), Int(RadixValue(d, 10))), Int(100)))
    ensures Dimension(d + u, container, original) == Ok(Int(RadixValue(d, 10)))
    ensures Dimension(word, container, original).Err?
  {
    assert EndsWith(d + "%", "%") by { assert (d + "%")[|d|..] == "%"; }
    DigitsThenText(d, "%");
    DigitsThenText(d, u);
    assert !EndsWith(d + u, "%") by {
      if u == [] { assert (d + u)[|d + u| - 1] == d[|d| - 1]; }
      else { assert (d + u)[|d + u| - 1] == u[|u| - 1]; }
    }
    assert d + u != "auto" by { assert (d + u)[0] == d[0]; }
    WordNotNumber(word);
  }

  /** `calculateBackgroundSize`: `cover` on either axis wins over `contain` on
      either axis; otherwise each axis is read on its own, width first. */
  function LayerSize(sizeValue: (string, string), iw: nat, ih: nat, cw: nat, ch: nat): (r: Result<Size>)
    ensures sizeValue.0 == "cover" || sizeValue.1 == "cover" ==>
      r == Ok(CoverSize(Size(Int(iw), Int(ih)), Size(Int(cw), Int(ch))))
    ensures sizeValue.0 != "cover" && sizeValue.1 != "cover" && (sizeValue.0 == "contain" || sizeValue.1 == "contain") ==>
      r == Ok(ContainSize(Size(Int(iw), Int(ih)), Size(Int(cw), Int(ch))))
  {
    var (widthValue, heightValue) := sizeValue;
    if widthValue == "cover" || heightValue == "cover" then
      Ok(CoverSize(Size(Int(iw), Int(ih)), Size(Int(cw), Int(ch))))
    else if widthValue == "contain" || heightValue == "contain" then
      Ok(ContainSize(Size(Int(iw), Int(ih)), Size(Int(cw), Int(ch))))
    else
      var width :- Dimension(widthValue, cw, iw);
      var height :- Dimension(heightValue, ch, ih);
      Ok(Size(width, height))
  }

  /** Without `cover` or `contain`, the two axes are sized independently: the
      layer size is the pair of the two dimensions, and it fails exactly when
      one of them does. */
  lemma IndependentAxes(sizeValue: (string, string), iw: nat, ih: nat, cw: nat, ch: nat)
    requires sizeValue.0 !in {"cover", "contain"} && sizeValue.1 !in {"cover", "contain"}
    ensures var r := LayerSize(sizeValue, iw, ih, cw, ch);
      var dw, dh := Dimension(sizeValue.0, cw, iw), Dimension(sizeValue.1, ch, ih);
      (r.Ok? <==> dw.Ok? && dh.Ok?) && (r.Ok? ==> r.value == Size(dw.value, dh.value))
  {
  }

  // ---------------------------------------------------------------------
  // background-position

  /** `parseBackgroundPosition` for one axis: the offset of the image in the
      free space left by it. */
  function Offset(value: string, container: nat, image: Num): (n: Num)
    ensures value == "left" || value == "top" ==> n == Int(0)
    ensures value == "right" || value == "bottom" ==> n == Sub(Int(container), image)
    ensures value == "center" ==> n == Div(Sub(Int(container), image), Int(2))
  {
    if EndsWith(value, "%") then Mul(Sub(Int(container), image), Div(ParseFloat(value), Int(100)))
    else if value == "left" || value == "top" then Int(0)
    else if value == "right" || value == "bottom" then Sub(Int(container), image)
    else if value == "center" then Div(Sub(Int(container), image), Int(2))
    else ParseFloat(value)
  }

  /** `calculateBackgroundPosition`: `right` and `bottom` put the far edge of
      the image on the far edge of the canvas, and `center` leaves equal
      margins on both sides. */
  function LayerPosition(positionValue: (string, string), size: Size, cw: nat, ch: nat): (p: Position)
    ensures positionValue.0 == "right" && size.width.Fin? ==> p.x.Fin? && p.x.v + size.width.v == cw as real
    ensures positionValue.1 == "bottom" && size.height.Fin? ==> p.y.Fin? && p.y.v + size.height.v == ch as real
    ensures positionValue.0 == "center" && size.width.Fin? ==>
      p.x.Fin? && p.x.v == cw as real - (p.x.v + size.width.v)
    ensures positionValue.1 == "center" && size.height.Fin? ==>
      p.y.Fin? && p.y.v == ch as real - (p.y.v + size.height.v)
    ensures positionValue.0 == "left" ==> p.x == Int(0)
    ensures positionValue.1 == "top" ==> p.y == Int(0)
  {
    Position(Offset(positionValue.0, cw, size.width), Offset(positionValue.1, ch, size.height))
  }

  /** `N%` places the image N hundredths of the way through the free space. */
  lemma PercentOffset(d: string, container: nat, image: real)
    requires |d| > 0 && AllDigits(d)
    ensures Offset(d + "%", container, Fin(image)) ==
      Mul(Sub(Int(container), Fin(image)), Div(Int(RadixValue(d, 10)), Int(100)))
  {
    assert EndsWith(d + "%", "%") by { assert (d + "%")[|d|..] == "%"; }
    DigitsThenText(d, "%");
  }

  /** The keywords agree with the percentages for an image of finite size:
      `left`/`top` are 0%, `center` is 50%, `right`/`bottom` are 100%. */
  lemma KeywordOffsets(container: nat, image: real)
    ensures Offset("0%", container, Fin(image)) == Offset("left", container, Fin(image))
    ensures Offset("50%", container, Fin(image)) == Offset("center", container, Fin(image))
    ensures Offset("100%", container, Fin(image)) == Offset("bottom", container, Fin(image))
  {
    ZeroOffset(container, image);
    HalfOffset(container, image);
    FullOffset(container, image);
    CenterOffset(container, image);
    FarOffset(container, image);
  }

  lemma CenterOffset(container: nat, image: real)
    ensures Offset("center", container, Fin(image)) == Fin((container as real - image) / 2.0)
  {
  }

  lemma FarOffset(container: nat, image: real)
    ensures Offset("bottom", container, Fin(image)) == Fin(container as real - image)
  {
  }

  lemma ZeroOffset(container: nat, image: real)
    ensures Offset("0%", container, Fin(image)) == Int(0)
  {
    ZeroDigits();
    PercentOffset("0", container, image);
    assert "0" + "%" == "0%";
    Hundredths(container, image, 0);
  }

  lemma HalfOffset(container: nat, image: real)
    ensures Offset("50%", container, Fin(image)) == Fin((container as real - image) / 2.0)
  {
    FiftyDigits();
    PercentOffset("50", container, image);
    assert "50" + "%" == "50%";
    Hundredths(container, image, 50);
  }

  lemma FullOffset(container: nat, image: real)
    ensures Offset("100%", container, Fin(image)) == Fin(container as real - image)
  {
    HundredDigits();
    PercentOffset("100", container, image);
    assert "100" + "%" == "100%";
    Hundredths(container, image, 100);
  }

  /** N hundredths of the free space left by an image of finite size. */
  lemma Hundredths(container: nat, image: real, n: nat)
    ensures var share := Mul(Sub(Int(container), Fin(image)), Div(Int(n), Int(100)));
      share == Fin((container as real - image) * (n as real / 100.0)) &&
      (n == 0 ==> share == Int(0)) &&
      (n == 50 ==> share == Fin((container as real - image) / 2.0)) &&
      (n == 100 ==> share == Fin(container as real - image))
  {
  }

  // ---------------------------------------------------------------------
  // Loops and tile grids

  /** How many times `for (let i = 0; i < bound; i++)` runs; `None` when it
      never stops, which is the case for a bound of +Infinity. */
  function Iterations(bound: Num): (r: Option<nat>)
    ensures r.None? <==> bound == PosInf
    ensures r.Some? ==> forall i: nat :: i < r.value <==> Less(Int(i), bound)
  {
    match bound
    case Fin(c) => Some(if c <= 0.0 then 0 else Ceil(c))
    case PosInf => None
    case _ => Some(0)
  }

  /** The bounds of two nested loops, `rows` outside and `cols` inside, when
      both stop: the inner loop is never reached when the outer one runs zero
      times. */
  function Loops(cols: Num, rows: Num): (r: Option<(nat, nat)>)
    ensures r.None? <==> rows == PosInf || (Iterations(rows) != Some(0) && cols == PosInf)
    ensures r.Some? ==> Iterations(rows) == Some(r.value.1)
    ensures r.Some? && r.value.1 > 0 ==> Iterations(cols) == Some(r.value.0)
  {
    match Iterations(rows)
    case None => None
    case Some(n) =>
      if n == 0 then Some((Iterations(cols).GetOr(0), 0))
      else
        match Iterations(cols)
        case None => None
        case Some(m) => Some((m, n))
  }

  /** The tiles of row `y`, left to right. */
  function Row(cols: nat, y: nat, tile: (nat, nat) -> DrawCmd): (r: seq<DrawCmd>)
    ensures |r| == cols && forall x :: 0 <= x < cols ==> r[x] == tile(x, y)
  {
    if cols == 0 then [] else Row(cols - 1, y, tile) + [tile(cols - 1, y)]
  }

  /** The tiles of the first `rows` rows, row by row. */
  function Grid(cols: nat, rows: nat, tile: (nat, nat) -> DrawCmd): seq<DrawCmd> {
    if rows == 0 then [] else Grid(cols, rows - 1, tile) + Row(cols, rows - 1, tile)
  }

  /** The grid holds `cols * rows` tiles, row by row: the one at column x of
      row y is at index `y * cols + x`. */
  lemma {:induction false} GridTile(cols: nat, rows: nat, tile: (nat, nat) -> DrawCmd, y: nat, x: nat)
    requires y < rows && x < cols
    ensures |Grid(cols, rows, tile)| == rows * cols && y * cols + x < rows * cols &&
      Grid(cols, rows, tile)[y * cols + x] == tile(x, y)
  {
    GridLength(cols, rows, tile);
    IndexBound(cols, rows, y, x);
    TileAt(cols, rows, tile, y, x);
  }

  lemma {:induction false} TileAt(cols: nat, rows: nat, tile: (nat, nat) -> DrawCmd, y: nat, x: nat)
    requires y < rows && x < cols && y * cols + x < |Grid(cols, rows, tile)|
    ensures Grid(cols, rows, tile)[y * cols + x] == tile(x, y)
  {
    GridLength(cols, rows - 1, tile);
    IndexBound(cols, rows, y, x);
    if y == rows - 1 {
      LastRowTile(cols, rows, tile, x);
    } else {
      TileAt(cols, rows - 1, tile, y, x);
      EarlierRowTile(cols, rows, tile, y * cols + x);
    }
  }

  /** The tiles of the last row follow all earlier rows. */
  lemma LastRowTile(cols: nat, rows: nat, tile: (nat, nat) -> DrawCmd, x: nat)
    requires 0 < rows && x < cols
    ensures var before := |Grid(cols, rows - 1, tile)|;
      before + x < |Grid(cols, rows, tile)| && Grid(cols, rows, tile)[before + x] == tile(x, rows - 1)
  {
    var g, r := Grid(cols, rows - 1, tile), Row(cols, rows - 1, tile);
    assert Grid(cols, rows, tile) == g + r;
    assert (g + r)[|g| + x] == r[x];
  }

  /** Adding a row keeps the tiles before it where they were. */
  lemma EarlierRowTile(cols: nat, rows: nat, tile: (nat, nat) -> DrawCmd, i: nat)
    requires 0 < rows && i < |Grid(cols, rows - 1, tile)|
    ensures i < |Grid(cols, rows, tile)| && Grid(cols, rows, tile)[i] == Grid(cols, rows - 1, tile)[i]
  {
    var g, r := Grid(cols, rows - 1, tile), Row(cols, rows - 1, tile);
    assert Grid(cols, rows, tile) == g + r;
  }

  lemma {:induction false} GridLength(cols: nat, rows: nat, tile: (nat, nat) -> DrawCmd)
    ensures |Grid(cols, rows, tile)| == rows * cols
  {
    if rows > 0 {
      GridLength(cols, rows - 1, tile);
      RowStart(cols, rows);
    }
  }

  lemma RowStart(cols: nat, rows: nat)
    requires rows > 0
    ensures (rows - 1) * cols + cols == rows * cols
  {
  }

  lemma IndexBound(cols: nat, rows: nat, y: nat, x: nat)
    requires y < rows && x < cols
    ensures y * cols + x < rows * cols
    ensures y < rows - 1 ==> y * cols + x < (rows - 1) * cols
    ensures y == rows - 1 ==> y * cols == (rows - 1) * cols
  {
    if y < rows - 1 {
      MulLeq(y + 1, rows - 1, cols);
    } else {
      MulLeq(y + 1, rows, cols);
    }
  }

  lemma MulLeq(a: nat, b: nat, c: nat)
    requires a <= b
    ensures a * c <= b * c && (a - 1) * c + c == a * c
  {
  }

  // ---------------------------------------------------------------------
  // background-repeat: space

  /** `Math.floor(canvas / tile)`: how many whole tiles fit. */
  function SpaceCount(canvas: nat, tile: Num): Num { MathFloor(Div(Int(canvas), tile)) }

  /** The gap left before, between and after the tiles. */
  function SpaceGap(canvas: nat, tile: Num): Num {
    var count := SpaceCount(canvas, tile);
    Div(Sub(Int(canvas), Mul(count, tile)), Add(count, Int(1)))
  }

  /** Where tile `k` starts on an axis: `position + k * (tile + gap) + gap`. */
  function SpacedStart(position: Num, k: nat, tile: Num, gap: Num): Num {
    Add(Add(position, Mul(Int(k), Add(tile, gap))), gap)
  }

  /** `count` whole tiles of width `w` and `count + 1` gaps of `gap`: the
      count is the number of whole tiles that fit in `x`, the gap is
      non-negative and smaller than a tile, and tiles and gaps span `x`
      exactly. */
  predicate SpacedEvenly(count: Num, gap: Num, x: real, w: real) {
    count.Fin? && gap.Fin? && count.v >= 0.0 &&
    count.v * w <= x < count.v * w + w &&
    0.0 <= gap.v < w && count.v * w + (count.v + 1.0) * gap.v == x
  }

  /** With a tile of positive width the count and the gap of `space` lay
      the tiles out evenly over the canvas. */
  lemma SpaceLayout(canvas: nat, w: real)
    requires w > 0.0
    ensures SpacedEvenly(SpaceCount(canvas, Fin(w)), SpaceGap(canvas, Fin(w)), canvas as real, w)
  {
    SpaceNums(canvas, w);
    LayoutOf(SpaceCount(canvas, Fin(w)), SpaceGap(canvas, Fin(w)), canvas as real, w);
  }

  /** The count is `floor(x / w)` and the gap what the tiles leave of `x`,
      shared among `count + 1` gaps. */
  predicate CountAndGap(count: Num, gap: Num, x: real, w: real)
    requires w > 0.0 && x >= 0.0
  {
    var c := Floor(x / w) as real;
    count == Fin(c) && gap == Fin((x - c * w) / (c + 1.0))
  }

  /** `SpaceLayout` for a count and a gap already computed. */
  lemma LayoutOf(count: Num, gap: Num, x: real, w: real)
    requires w > 0.0 && x >= 0.0 && CountAndGap(count, gap, x, w)
    ensures SpacedEvenly(count, gap, x, w)
  {
    var c := Floor(x / w) as real;
    FloorBetween(x, w, c);
    SpaceArith(x, w, c, c * w, (x - c * w) / (c + 1.0));
  }

  /** The count and the gap as real numbers: the count is `floor(canvas / w)`. */
  lemma SpaceNums(canvas: nat, w: real)
    requires w > 0.0
    ensures CountAndGap(SpaceCount(canvas, Fin(w)), SpaceGap(canvas, Fin(w)), canvas as real, w)
  {
    SpaceCountIs(canvas, w);
    SpaceGapIs(canvas, w, Floor(canvas as real / w) as real);
  }

  lemma SpaceCountIs(canvas: nat, w: real)
    requires w > 0.0
    ensures SpaceCount(canvas, Fin(w)) == Fin(Floor(canvas as real / w) as real)
  {
  }

  lemma SpaceGapIs(canvas: nat, w: real, c: real)
    requires c >= 0.0 && SpaceCount(canvas, Fin(w)) == Fin(c)
    ensures SpaceGap(canvas, Fin(w)) == Fin((canvas as real - c * w) / (c + 1.0))
  {
    GapOf(canvas as real, w, c);
  }

  /** The gap for a finite count, in the terms `SpaceGap` uses. */
  lemma GapOf(x: real, w: real, c: real)
    requires c >= 0.0
    ensures Div(Sub(Fin(x), Mul(Fin(c), Fin(w))), Add(Fin(c), Int(1))) == Fin((x - c * w) / (c + 1.0))
  {
  }

  /** `FloorTimes` for a count already computed. */
  lemma FloorBetween(x: real, w: real, c: real)
    requires w > 0.0 && x >= 0.0 && c == Floor(x / w) as real
    ensures c >= 0.0 && c * w <= x < c * w + w
  {
    FloorTimes(x, w);
  }

  lemma SpaceArith(cw: real, w: real, c: real, p: real, g: real)
    requires w > 0.0 && c >= 0.0 && p == c * w && p <= cw < p + w
    requires g == (cw - p) / (c + 1.0)
    ensures 0.0 <= g < w && p + (c + 1.0) * g == cw
  {
    assert (c + 1.0) * g == cw - p;
    assert g <= (c + 1.0) * g;
  }

  /** `floor(x / w) * w <= x < floor(x / w) * w + w` for positive `w`. */
  lemma FloorTimes(x: real, w: real)
    requires w > 0.0
    ensures Floor(x / w) as real * w <= x < Floor(x / w) as real * w + w
    ensures x >= 0.0 ==> Floor(x / w) >= 0
  {
    var q := x / w;
    var c := Floor(q) as real;
    assert c <= q < c + 1.0;
    assert q * w == x by { RatioTimesAny(x, w); }
    assert c * w <= x by { MulStrictOrEqual(c, q, w); }
    assert x < c * w + w by {
      MulStrict(q, c + 1.0, w);
      assert (c + 1.0) * w == c * w + w;
    }
    assert x >= 0.0 ==> q >= 0.0 by { DivNonNegative(x, w); }
  }

  lemma RatioTimesAny(x: real, w: real)
    requires w != 0.0
    ensures (x / w) * w == x
  {
  }

  lemma DivNonNegative(x: real, w: real)
    requires w > 0.0
    ensures x >= 0.0 ==> x / w >= 0.0
  {
  }

  /** The gaps are even: the first tile starts one gap after the position,
      and each next tile one gap after the end of the previous one. */
  lemma SpaceGapsEqual(position: real, canvas: nat, w: real, k: nat)
    requires w > 0.0
    ensures var gap := SpaceGap(canvas, Fin(w));
      SpacedStart(Fin(position), 0, Fin(w), gap) == Fin(position + gap.v) &&
      SpacedStart(Fin(position), k + 1, Fin(w), gap) == Add(Add(SpacedStart(Fin(position), k, Fin(w), gap), Fin(w)), gap)
  {
    SpaceNums(canvas, w);
    var g := SpaceGap(canvas, Fin(w)).v;
    StartAt(position, 0, w, g);
    StartAt(position, k, w, g);
    StartAt(position, k + 1, w, g);
    StepArith(position, k as real, w, g);
  }

  /** When at least one tile fits, the last one ends one gap before the far
      edge of the canvas. */
  lemma SpaceLastGap(position: real, canvas: nat, w: real)
    requires w > 0.0 && SpaceCount(canvas, Fin(w)).v >= 1.0
    ensures var count, gap := SpaceCount(canvas, Fin(w)), SpaceGap(canvas, Fin(w));
      Add(Add(SpacedStart(Fin(position), Floor(count.v) as nat - 1, Fin(w), gap), Fin(w)), gap) ==
      Fin(position + canvas as real)
  {
    SpaceLayout(canvas, w);
    var c := SpaceCount(canvas, Fin(w)).v;
    var g := SpaceGap(canvas, Fin(w)).v;
    var n := Floor(c);
    assert n as real == c by { SpaceNums(canvas, w); }
    StartAt(position, n - 1, w, g);
    LastArith(position, c, w, g, canvas as real);
  }

  lemma StartAt(position: real, k: nat, w: real, g: real)
    ensures SpacedStart(Fin(position), k, Fin(w), Fin(g)) == Fin(position + k as real * (w + g) + g)
  {
  }

  lemma StepArith(position: real, k: real, w: real, g: real)
    ensures position + (k + 1.0) * (w + g) + g == position + k * (w + g) + g + w + g
  {
  }

  lemma LastArith(position: real, c: real, w: real, g: real, cw: real)
    requires c * w + (c + 1.0) * g == cw
    ensures position + (c - 1.0) * (w + g) + g + w + g == position + cw
  {
  }

  // ---------------------------------------------------------------------
  // background-repeat: round

  /** `Math.round(canvas / tile)`: the number of tiles after rounding. */
  function RoundCount(canvas: nat, tile: Num): Num { MathRound(Div(Int(canvas), tile)) }

  /** The width each tile is stretched or squeezed to. */
  function RoundWidth(canvas: nat, tile: Num): Num { Div(Int(canvas), RoundCount(canvas, tile)) }

  /** Where tile `k` starts on an axis: `position + k * width`. */
  function RoundStart(position: Num, k: nat, width: Num): Num { Add(position, Mul(Int(k), width)) }

  lemma RoundNums(canvas: nat, w: real)
    requires w > 0.0
    ensures RoundCount(canvas, Fin(w)).Fin?
    ensures RoundCount(canvas, Fin(w)).v >= 0.0
    ensures (RoundCount(canvas, Fin(w)).v - 0.5) * w <= canvas as real
    ensures canvas as real < (RoundCount(canvas, Fin(w)).v + 0.5) * w
  {
    var cw := canvas as real;
    var x := cw / w;
    var c := Round(x) as real;
    RatioTimesAny(cw, w);
    DivNonNegative(cw, w);
    assert RoundCount(canvas, Fin(w)) == Fin(c);
    assert Round(x) >= 0 by { assert Round(x) as real > -1.0; }
    RoundBounds(cw, w, x, c);
  }

  lemma RoundBounds(cw: real, w: real, x: real, c: real)
    requires w > 0.0 && x * w == cw && x - 0.5 < c <= x + 0.5
    ensures (c - 0.5) * w <= cw < (c + 0.5) * w
  {
    var lo, hi := c - 0.5, c + 0.5;
    MulStrictOrEqual(lo, x, w);
    MulStrict(x, hi, w);
    assert lo * w <= cw < hi * w;
  }

  /** With a tile of positive width: when at least one tile is drawn, the
      tiles have the adjusted width and `count` of them span the canvas
      exactly; no tile is drawn exactly when the tile is more than twice as
      wide as the canvas. */
  lemma RoundLayout(canvas: nat, w: real)
    requires w > 0.0
    ensures var count, width := RoundCount(canvas, Fin(w)), RoundWidth(canvas, Fin(w));
      count.Fin? && count.v >= 0.0 &&
      (count.v >= 1.0 ==> width.Fin? && count.v * width.v == canvas as real) &&
      (count.v == 0.0 <==> 2.0 * canvas as real < w)
  {
    RoundNums(canvas, w);
    var c := RoundCount(canvas, Fin(w)).v;
    if c >= 1.0 {
      assert RoundWidth(canvas, Fin(w)) == Fin(canvas as real / c);
      RatioTimesAny(canvas as real, c);
    }
    RoundZero(canvas as real, w, c);
  }

  lemma RoundZero(cw: real, w: real, c: real)
    requires w > 0.0 && c >= 0.0 && (c - 0.5) * w <= cw < (c + 0.5) * w && cw >= 0.0
    requires c == Floor(c) as real
    ensures c == 0.0 <==> 2.0 * cw < w
  {
    if c >= 1.0 {
      MulStrictOrEqual(0.5, c - 0.5, w);
    }
  }

  /** The tiles are laid edge to edge: each starts where the previous one
      ends, and when a tile is drawn at all the last one ends at the far edge
      of the canvas. */
  lemma RoundContiguous(position: real, canvas: nat, w: real, k: nat)
    requires w > 0.0 && RoundCount(canvas, Fin(w)).v >= 1.0
    ensures var width := RoundWidth(canvas, Fin(w));
      RoundStart(Fin(position), 0, width) == Fin(position) &&
      RoundStart(Fin(position), k + 1, width) == Add(RoundStart(Fin(position), k, width), width) &&
      Add(RoundStart(Fin(position), Floor(RoundCount(canvas, Fin(w)).v) as nat - 1, width), width) ==
        Fin(position + canvas as real)
  {
    RoundLayout(canvas, w);
    var c := RoundCount(canvas, Fin(w)).v;
    var a := RoundWidth(canvas, Fin(w)).v;
    var n := Floor(c);
    assert n as real == c by { RoundNums(canvas, w); RoundIntegral(canvas, w); }
    RoundStep(position, k as real, a);
    RoundStep(position, (n - 1) as real, a);
    assert ((n - 1) as real + 1.0) * a == canvas as real;
  }

  lemma RoundIntegral(canvas: nat, w: real)
    requires w > 0.0
    ensures RoundCount(canvas, Fin(w)) == Int(Round(canvas as real / w))
  {
  }

  lemma RoundStep(position: real, k: real, a: real)
    ensures position + (k + 1.0) * a == position + k * a + a
  {
  }

  // ---------------------------------------------------------------------
  // Drawing

  /** One tile of `drawSpacedImage`. */
  function SpacedTile(image: ImageSource, pos: Position, size: Size, gaps: (Num, Num), x: nat, y: nat): DrawCmd {
    DrawImage(image, SpacedStart(pos.x, x, size.width, gaps.0), SpacedStart(pos.y, y, size.height, gaps.1),
      size.width, size.height)
  }

  /** The tiles `drawSpacedImage` draws, row by row; `None` when its loops
      never end. */
  function SpacedTiles(image: ImageSource, pos: Position, size: Size, cw: nat, ch: nat): Option<seq<DrawCmd>> {
    var gaps := (SpaceGap(cw, size.width), SpaceGap(ch, size.height));
    match Loops(SpaceCount(cw, size.width), SpaceCount(ch, size.height))
    case None => None
    case Some((cols, rows)) => Some(Grid(cols, rows, (x: nat, y: nat) => SpacedTile(image, pos, size, gaps, x, y)))
  }

  /** One tile of `drawRoundedImage`. */
  function RoundTile(image: ImageSource, pos: Position, widths: (Num, Num), x: nat, y: nat): DrawCmd {
    DrawImage(image, RoundStart(pos.x, x, widths.0), RoundStart(pos.y, y, widths.1), widths.0, widths.1)
  }

  /** The tiles `drawRoundedImage` draws, row by row; `None` when its loops
      never end. */
  function RoundTiles(image: ImageSource, pos: Position, size: Size, cw: nat, ch: nat): Option<seq<DrawCmd>> {
    var widths := (RoundWidth(cw, size.width), RoundWidth(ch, size.height));
    match Loops(RoundCount(cw, size.width), RoundCount(ch, size.height))
    case None => None
    case Some((cols, rows)) => Some(Grid(cols, rows, (x: nat, y: nat) => RoundTile(image, pos, widths, x, y)))
  }

  /** `createImageTile`: a new canvas of the tile's size holding the image
      scaled to it. */
  function ImageTile(image: ImageSource, size: Size): ImageSource {
    CanvasImage(CanvasDim(size.width), CanvasDim(size.height), [DrawImage(image, Int(0), Int(0), size.width, size.height)])
  }

  /** `drawRepeatedImage`: a pattern of the tile, shifted to the position,
      filling the canvas along the repeated axes and one tile across the
      other. */
  function RepeatedCommands(image: ImageSource, pos: Position, size: Size, direction: string, cw: nat, ch: nat): seq<DrawCmd> {
    var repetition := if direction == "x" then "repeat-x" else if direction == "y" then "repeat-y" else "repeat";
    [Save, Translate(pos.x, pos.y), SetFillStyle(Pattern(ImageTile(image, size), repetition)),
     FillRect(Int(0), Int(0), if direction == "y" then size.width else Int(cw), if direction == "x" then size.height else Int(ch)),
     Restore]
  }

  /** `createPattern` throws an `InvalidStateError` when the tile canvas has
      a zero side, as a tile under one pixel wide or high gives it: the three
      pattern modes then end the `onload` handler before any call. */
  predicate PatternThrows(repeat: string, image: ImageSource, size: Size) {
    (repeat == "repeat-x" || repeat == "repeat-y" || repeat == "repeat") && !Usable(ImageTile(image, size))
  }

  /** The calls the `background-repeat` switch makes; `None` when they never
      end.  An unknown mode draws nothing. */
  function RepeatCommands(repeat: string, image: ImageSource, pos: Position, size: Size, cw: nat, ch: nat): Option<seq<DrawCmd>> {
    if repeat == "no-repeat" then Some([DrawImage(image, pos.x, pos.y, size.width, size.height)])
    else if repeat == "repeat-x" then Some(RepeatedCommands(image, pos, size, "x", cw, ch))
    else if repeat == "repeat-y" then Some(RepeatedCommands(image, pos, size, "y", cw, ch))
    else if repeat == "repeat" then Some(RepeatedCommands(image, pos, size, "both", cw, ch))
    else if repeat == "space" then SpacedTiles(image, pos, size, cw, ch)
    else if repeat == "round" then RoundTiles(image, pos, size, cw, ch)
    else Some([])
  }

  /** The area the pattern fills: canvas width by tile height for `repeat-x`,
      tile width by canvas height for `repeat-y`, the whole canvas for
      `repeat`; always inside save/restore, translated to the position. */
  lemma RepeatFills(image: ImageSource, pos: Position, size: Size, cw: nat, ch: nat)
    ensures var cs := RepeatCommands("repeat-x", image, pos, size, cw, ch).value;
      |cs| == 5 && cs[0] == Save && cs[1] == Translate(pos.x, pos.y) && cs[4] == Restore &&
      cs[3] == FillRect(Int(0), Int(0), Int(cw), size.height)
    ensures var cs := RepeatCommands("repeat-y", image, pos, size, cw, ch).value;
      |cs| == 5 && cs[3] == FillRect(Int(0), Int(0), size.width, Int(ch))
    ensures var cs := RepeatCommands("repeat", image, pos, size, cw, ch).value;
      |cs| == 5 && cs[3] == FillRect(Int(0), Int(0), Int(cw), Int(ch))
    ensures RepeatCommands("no-repeat", image, pos, size, cw, ch) ==
      Some([DrawImage(image, pos.x, pos.y, size.width, size.height)])
  {
  }

  /** With a tile of zero width on a canvas of positive width, `space` and
      `round` never finish once a row is drawn: the bound of the inner loop is
      +Infinity. */
  lemma ZeroTileHangs(image: ImageSource, pos: Position, size: Size, cw: nat, ch: nat)
    requires cw > 0 && size.width == Int(0) && size.height.Fin? && size.height.v > 0.0
    requires ch as real >= size.height.v
    ensures SpacedTiles(image, pos, size, cw, ch).None?
    ensures RoundTiles(image, pos, size, cw, ch).None?
  {
    var h := size.height.v;
    SpaceLayout(ch, h);
    var c := SpaceCount(ch, size.height).v;
    PositiveCount(c, h, ch as real);
    RoundLayout(ch, h);
  }

  lemma PositiveCount(c: real, h: real, ch: real)
    requires h > 0.0 && c >= 0.0 && ch < c * h + h && ch >= h
    ensures c > 0.0
  {
    assert c * h > 0.0;
  }

  /** The inner loop of `drawSpacedImage` and `drawRoundedImage`: one row of
      tiles, `x` running from 0 while `x < colBound`. */
  method DrawRow(ctx: Context, colBound: Num, cols: nat, y: nat, tile: (nat, nat) -> DrawCmd)
    requires Iterations(colBound) == Some(cols)
    modifies ctx
    ensures ctx.width == old(ctx.width) && ctx.height == old(ctx.height)
    ensures ctx.log == old(ctx.log) + Row(cols, y, tile)
  {
    var x := 0;
    while Less(Int(x), colBound)
      invariant x <= cols
      invariant ctx.width == old(ctx.width) && ctx.height == old(ctx.height)
      invariant ctx.log == old(ctx.log) + Row(x, y, tile)
      decreases cols - x
    {
      ctx.Do(tile(x, y));
      x := x + 1;
    }
  }

  /** The two nested loops: rows while `y < rowBound`, each a row of tiles.
      When the loops never end the model draws nothing and says so. */
  method DrawGrid(ctx: Context, colBound: Num, rowBound: Num, tile: (nat, nat) -> DrawCmd) returns (finished: bool)
    modifies ctx
    ensures ctx.width == old(ctx.width) && ctx.height == old(ctx.height)
    ensures finished == Loops(colBound, rowBound).Some?
    ensures finished ==>
      ctx.log == old(ctx.log) + Grid(Loops(colBound, rowBound).value.0, Loops(colBound, rowBound).value.1, tile)
    ensures !finished ==> ctx.log == old(ctx.log)
  {
    var bounds := Loops(colBound, rowBound);
    if bounds.None? {
      return false;
    }
    var (cols, rows) := bounds.value;
    var y := 0;
    while Less(Int(y), rowBound)
      invariant y <= rows
      invariant ctx.width == old(ctx.width) && ctx.height == old(ctx.height)
      invariant ctx.log == old(ctx.log) + Grid(cols, y, tile)
      decreases rows - y
    {
      DrawRow(ctx, colBound, cols, y, tile);
      y := y + 1;
    }
    return true;
  }

  /** `drawSpacedImage`: the counts and gaps of each axis, then a tile at
      every grid cell. */
  method DrawSpacedImage(ctx: Context, image: ImageSource, pos: Position, size: Size) returns (finished: bool)
    modifies ctx
    ensures ctx.width == old(ctx.width) && ctx.height == old(ctx.height)
    ensures finished == SpacedTiles(image, pos, size, old(ctx.width), old(ctx.height)).Some?
    ensures finished ==> ctx.log == old(ctx.log) + SpacedTiles(image, pos, size, old(ctx.width), old(ctx.height)).value
    ensures !finished ==> ctx.log == old(ctx.log)
  {
    var w, h := ctx.width, ctx.height;
    var horizontalCount := SpaceCount(w, size.width);
    var verticalCount := SpaceCount(h, size.height);
    var gaps := (SpaceGap(w, size.width), SpaceGap(h, size.height));
    finished := DrawGrid(ctx, horizontalCount, verticalCount, (x: nat, y: nat) => SpacedTile(image, pos, size, gaps, x, y));
  }

  /** `drawRoundedImage`: the rounded counts and stretched tile sizes of each
      axis, then a tile at every grid cell. */
  method DrawRoundedImage(ctx: Context, image: ImageSource, pos: Position, size: Size) returns (finished: bool)
    modifies ctx
    ensures ctx.width == old(ctx.width) && ctx.height == old(ctx.height)
    ensures finished == RoundTiles(image, pos, size, old(ctx.width), old(ctx.height)).Some?
    ensures finished ==> ctx.log == old(ctx.log) + RoundTiles(image, pos, size, old(ctx.width), old(ctx.height)).value
    ensures !finished ==> ctx.log == old(ctx.log)
  {
    var w, h := ctx.width, ctx.height;
    var horizontalCount := RoundCount(w, size.width);
    var verticalCount := RoundCount(h, size.height);
    var widths := (RoundWidth(w, size.width), RoundWidth(h, size.height));
    finished := DrawGrid(ctx, horizontalCount, verticalCount, (x: nat, y: nat) => RoundTile(image, pos, widths, x, y));
  }

  /** `drawRepeatedImage`: the pattern's calls issued one by one, unless
      `createPattern` throws for a tile with a zero side (`drawn` false). */
  method DrawRepeatedImage(ctx: Context, image: ImageSource, pos: Position, size: Size, direction: string)
    returns (drawn: bool)
    modifies ctx
    ensures ctx.width == old(ctx.width) && ctx.height == old(ctx.height)
    ensures drawn <==> Usable(ImageTile(image, size))
    ensures drawn ==> ctx.log == old(ctx.log) + RepeatedCommands(image, pos, size, direction, old(ctx.width), old(ctx.height))
    ensures !drawn ==> ctx.log == old(ctx.log)
  {
    var imageTile := ImageTile(image, size);
    if !Usable(imageTile) {
      return false;
    }
    var pattern := Pattern(imageTile, if direction == "x" then "repeat-x" else if direction == "y" then "repeat-y" else "repeat");
    ctx.Do(Save);
    ctx.Do(Translate(pos.x, pos.y));
    ctx.Do(SetFillStyle(pattern));
    ctx.Do(FillRect(Int(0), Int(0), if direction == "y" then size.width else Int(ctx.width),
      if direction == "x" then size.height else Int(ctx.height)));
    ctx.Do(Restore);
    drawn := true;
  }

  /** The `background-repeat` switch of the `onload` handler: `Err` when
      `createPattern` throws, `Ok(false)` when the loops never end. */
  method DrawRepeat(ctx: Context, repeat: string, image: ImageSource, pos: Position, size: Size) returns (r: Result<bool>)
    modifies ctx
    ensures ctx.width == old(ctx.width) && ctx.height == old(ctx.height)
    ensures r.Err? <==> PatternThrows(repeat, image, size)
    ensures r.Ok? ==> r.value == RepeatCommands(repeat, image, pos, size, old(ctx.width), old(ctx.height)).Some?
    ensures r == Ok(true) ==>
      ctx.log == old(ctx.log) + RepeatCommands(repeat, image, pos, size, old(ctx.width), old(ctx.height)).value
    ensures r != Ok(true) ==> ctx.log == old(ctx.log)
  {
    if repeat == "no-repeat" {
      ctx.Do(DrawImage(image, pos.x, pos.y, size.width, size.height));
      return Ok(true);
    } else if repeat == "repeat-x" || repeat == "repeat-y" || repeat == "repeat" {
      var direction := if repeat == "repeat-x" then "x" else if repeat == "repeat-y" then "y" else "both";
      var drawn := DrawRepeatedImage(ctx, image, pos, size, direction);
      if !drawn {
        return Err("InvalidStateError: the image tile has a zero side");
      }
      return Ok(true);
    } else if repeat == "space" {
      var finished := DrawSpacedImage(ctx, image, pos, size);
      return Ok(finished);
    } else if repeat == "round" {
      var finished := DrawRoundedImage(ctx, image, pos, size);
      return Ok(finished);
    }
    return Ok(true);
  }

  // ---------------------------------------------------------------------
  // The image URL

  predicate IsQuote(c: char) { c == '\'' || c == '"' }

  /** One match of `url\(['"]?(.*?)['"]?\)` on the text `r` after `url(`: an
      optional opening quote, then the shortest run before `)` or before a
      quote and `)`, on one line.  Gives the group and how much of `r` the
      match takes. */
  function UrlMatch(r: string): (m: Option<(string, nat)>)
    ensures m.Some? ==> 0 < m.value.1 <= |r| && r[m.value.1 - 1] == ')'
    ensures m.Some? ==> ')' !in m.value.0 && NoLineTerminator(m.value.0)
  {
    var open := if |r| > 0 && IsQuote(r[0]) then 1 else 0;
    var body := r[open..];
    var j := SpanNotClose(body);
    if j == |body| || !NoLineTerminator(body[..j]) then None
    else
      var group := if j > 0 && IsQuote(body[j - 1]) then body[..j - 1] else body[..j];
      assert forall i :: 0 <= i < |group| ==> group[i] == body[i];
      Some((group, open + j + 1))
  }

  /** `replace(/url\(['"]?(.*?)['"]?\)/g, '$1')`: every match, left to right,
      is replaced by its group; the rest of the text is kept. */
  function UrlReplace(s: string): (r: string)
    decreases |s|
  {
    if s == [] then []
    else if StartsWith(s, "url(") && UrlMatch(s[4..]).Some? then
      var (group, n) := UrlMatch(s[4..]).value;
      group + UrlReplace(s[4 + n..])
    else [s[0]] + UrlReplace(s[1..])
  }

  /** Text without `url(` is kept as it is. */
  lemma {:induction false} NoUrlUnchanged(s: string)
    requires !Contains(s, "url(")
    ensures UrlReplace(s) == s
  {
    if s != [] {
      NoUrlUnchanged(s[1..]);
      assert [s[0]] + s[1..] == s;
    }
  }

  /** `url(u)`, with `u` on one line, without `)` and not quoted, gives `u`. */
  lemma UrlUnquoted(u: string)
    requires ')' !in u && NoLineTerminator(u)
    requires u == [] || (!IsQuote(u[0]) && !IsQuote(u[|u| - 1]))
    ensures UrlReplace("url(" + u + ")") == u
  {
    var r := u + ")";
    var s := "url(" + r;
    assert s == "url(" + u + ")";
    assert s[..4] == "url(";
    assert s[4..] == r;
    UnquotedMatch(u);
    assert StartsWith(s, "url(");
    assert s[4 + |u| + 1..] == [];
    assert UrlReplace(s) == u + UrlReplace([]);
  }

  lemma UnquotedMatch(u: string)
    requires ')' !in u && NoLineTerminator(u)
    requires u == [] || (!IsQuote(u[0]) && !IsQuote(u[|u| - 1]))
    ensures UrlMatch(u + ")") == Some((u, |u| + 1))
  {
    var r := u + ")";
    assert !IsQuote(r[0]) by { if u != [] { assert r[0] == u[0]; } }
    assert r[0..] == r;
    SpanNotCloseAt(u);
    assert r[..|u|] == u;
    assert u != [] ==> r[|u| - 1] == u[|u| - 1];
  }

  /** `url("u")` and `url('u')`, with `u` on one line and without `)`, give `u`. */
  lemma UrlQuoted(q: char, u: string)
    requires IsQuote(q) && ')' !in u && NoLineTerminator(u)
    ensures UrlReplace("url(" + [q] + u + [q] + ")") == u
  {
    var r := [q] + u + [q] + ")";
    var s := "url(" + r;
    assert s == "url(" + [q] + u + [q] + ")";
    assert s[..4] == "url(";
    assert s[4..] == r;
    QuotedMatch(q, u);
    assert StartsWith(s, "url(");
    assert s[4 + |u| + 3..] == [];
    assert UrlReplace(s) == u + UrlReplace([]);
  }

  lemma QuotedMatch(q: char, u: string)
    requires IsQuote(q) && ')' !in u && NoLineTerminator(u)
    ensures UrlMatch([q] + u + [q] + ")") == Some((u, |u| + 3))
  {
    var r := [q] + u + [q] + ")";
    var body := u + [q] + ")";
    assert r[0] == q && r[1..] == body;
    assert SpanNotClose(body) == |u| + 1 by { SpanNotCloseAt(u + [q]); }
    assert body[..|u| + 1] == u + [q];
    assert (u + [q])[..|u|] == u && (u + [q])[|u|] == q;
    assert NoLineTerminator(u + [q]);
    assert body[|u|] == q && body[..|u|] == u;
  }

  // ---------------------------------------------------------------------
  // drawBackgroundImage

  /** How the promise `drawBackgroundImage` returns settles: rejected before
      loading starts, resolved with whether the image was drawn, or never
      settled by the handler because its loops do not end. */
  datatype Outcome = Rejected(reason: string) | Resolved(drawn: bool) | Frozen

  /** The URL of a layer's image: a missing or empty image, or one that the
      replacement empties, is rejected. */
  function ImageUrl(image: Option<string>): (r: Result<string>)
    ensures r.Ok? ==> r.value != "" && image.Some? && r.value == UrlReplace(image.value)
    ensures r.Err? <==> image.None? || image.value == "" || UrlReplace(image.value) == ""
  {
    if image.None? || image.value == "" then Err("no image URL")
    else
      var imageUrl := UrlReplace(image.value);
      if imageUrl == "" then Err("invalid image URL") else Ok(imageUrl)
  }

  /** The `onload` handler for an image of natural size `natural`: the size,
      then the position, then the calls of the repeat mode.  `Err` is an
      exception thrown by the size or by `createPattern`; `Ok(None)` loops
      that do not end. */
  function ImageDrawing(url: string, natural: (nat, nat), layer: Layer, cw: nat, ch: nat): Result<Option<seq<DrawCmd>>> {
    var size :- LayerSize(layer.size, natural.0, natural.1, cw, ch);
    var position := LayerPosition(layer.position, size, cw, ch);
    var image := Bitmap(url, natural.0, natural.1);
    if PatternThrows(layer.repeat, image, size) then Err("InvalidStateError: the image tile has a zero side")
    else Ok(RepeatCommands(layer.repeat, image, position, size, cw, ch))
  }

  /** How the promise settles.  `loaded` is the natural size of the picture,
      `None` when it fails to load (then `onerror` resolves false, as does the
      ten-second timer if the picture never arrives).  An exception in
      `onload` leaves the promise to that timer as well. */
  function ImageOutcome(layer: Layer, loaded: Option<(nat, nat)>, cw: nat, ch: nat): (o: Outcome)
    ensures o.Rejected? <==> ImageUrl(layer.image).Err?
    ensures o == Resolved(true) ==> loaded.Some? && ImageDrawing(ImageUrl(layer.image).value, loaded.value, layer, cw, ch).Ok?
    ensures loaded.None? ==> !o.Frozen? && o != Resolved(true)
  {
    match ImageUrl(layer.image)
    case Err(reason) => Rejected(reason)
    case Ok(url) =>
      if loaded.None? then Resolved(false)
      else
        match ImageDrawing(url, loaded.value, layer, cw, ch)
        case Err(_) => Resolved(false)
        case Ok(None) => Frozen
        case Ok(Some(_)) => Resolved(true)
  }

  /** `drawBackgroundImage` on a layer canvas, with the load's result given. */
  method DrawBackgroundImage(ctx: Context, layer: Layer, loaded: Option<(nat, nat)>) returns (outcome: Outcome)
    modifies ctx
    ensures ctx.width == old(ctx.width) && ctx.height == old(ctx.height)
    ensures outcome == ImageOutcome(layer, loaded, old(ctx.width), old(ctx.height))
    ensures outcome == Resolved(true) ==>
      ctx.log == old(ctx.log) + ImageDrawing(ImageUrl(layer.image).value, loaded.value, layer, old(ctx.width), old(ctx.height)).value.value
    ensures outcome != Resolved(true) ==> ctx.log == old(ctx.log)
  {
    if layer.image.None? || layer.image.value == "" {
      return Rejected("no image URL");
    }
    var imageUrl := UrlReplace(layer.image.value);
    if imageUrl == "" {
      return Rejected("invalid image URL");
    }
    if loaded.None? {
      return Resolved(false);
    }
    var (width, height) := loaded.value;
    var image := Bitmap(imageUrl, width, height);
    var size := LayerSize(layer.size, width, height, ctx.width, ctx.height);
    if size.Err? {
      return Resolved(false);
    }
    var position := LayerPosition(layer.position, size.value, ctx.width, ctx.height);
    var drawn := DrawRepeat(ctx, layer.repeat, image, position, size.value);
    outcome := if drawn.Err? then Resolved(false) else if drawn.value then Resolved(true) else Frozen;
  }

  /** A picture at `url(u)` with the default size and position and no
      repetition is drawn once, at its natural size, in the top-left corner. */
  lemma NaturalSizeAtOrigin(u: string, layer: Layer, iw: nat, ih: nat, cw: nat, ch: nat)
    requires u != [] && ')' !in u && NoLineTerminator(u) && !IsQuote(u[0]) && !IsQuote(u[|u| - 1])
    requires layer.image == Some("url(" + u + ")")
    requires layer.size == ("auto", "auto") && layer.position == ("0%", "0%") && layer.repeat == "no-repeat"
    ensures ImageOutcome(layer, Some((iw, ih)), cw, ch) == Resolved(true)
    ensures ImageDrawing(u, (iw, ih), layer, cw, ch) ==
      Ok(Some([DrawImage(Bitmap(u, iw, ih), Int(0), Int(0), Int(iw), Int(ih))]))
  {
    UrlUnquoted(u);
    assert ImageUrl(layer.image) == Ok(u);
    assert LayerSize(layer.size, iw, ih, cw, ch) == Ok(Size(Int(iw), Int(ih)));
    ZeroOffset(cw, iw as real);
    ZeroOffset(ch, ih as real);
    var size := Size(Int(iw), Int(ih));
    assert LayerPosition(layer.position, size, cw, ch) == Position(Int(0), Int(0));
    assert !PatternThrows(layer.repeat, Bitmap(u, iw, ih), size);
  }

  /** A picture repeated with `repeat`, `repeat-x` or `repeat-y` whose size
      comes out under one pixel on an axis, as `background-size: 0.5px` makes
      it, gets a tile canvas with a zero side: `createPattern` throws inside
      `onload`, so the promise is left to the ten-second timer, which
      resolves false. */
  lemma SubPixelTileFails(layer: Layer, iw: nat, ih: nat, cw: nat, ch: nat)
    requires ImageUrl(layer.image).Ok?
    requires layer.repeat == "repeat-x" || layer.repeat == "repeat-y" || layer.repeat == "repeat"
    requires var s := LayerSize(layer.size, iw, ih, cw, ch);
      s.Ok? && ((s.value.width.Fin? && 0.0 <= s.value.width.v < 1.0) ||
                (s.value.height.Fin? && 0.0 <= s.value.height.v < 1.0))
    ensures ImageOutcome(layer, Some((iw, ih)), cw, ch) == Resolved(false)
  {
    var s := LayerSize(layer.size, iw, ih, cw, ch).value;
    var tile := ImageTile(Bitmap(ImageUrl(layer.image).value, iw, ih), s);
    assert tile.width == 0 || tile.height == 0;
    PatternOutcome(layer, iw, ih, cw, ch);
  }

  /** With a tile of at least one pixel on both axes the same three modes
      draw their pattern and the promise resolves true. */
  lemma WholeTileDrawn(layer: Layer, iw: nat, ih: nat, cw: nat, ch: nat)
    requires ImageUrl(layer.image).Ok?
    requires layer.repeat == "repeat-x" || layer.repeat == "repeat-y" || layer.repeat == "repeat"
    requires var s := LayerSize(layer.size, iw, ih, cw, ch);
      s.Ok? && s.value.width.Fin? && 1.0 <= s.value.width.v < MaxDimension as real &&
      s.value.height.Fin? && 1.0 <= s.value.height.v < MaxDimension as real
    ensures ImageOutcome(layer, Some((iw, ih)), cw, ch) == Resolved(true)
  {
    var s := LayerSize(layer.size, iw, ih, cw, ch).value;
    var tile := ImageTile(Bitmap(ImageUrl(layer.image).value, iw, ih), s);
    assert tile.width > 0 && tile.height > 0;
    PatternOutcome(layer, iw, ih, cw, ch);
  }

  /** For the three pattern modes the promise resolves with whether the
      tile has an area. */
  lemma PatternOutcome(layer: Layer, iw: nat, ih: nat, cw: nat, ch: nat)
    requires ImageUrl(layer.image).Ok?
    requires layer.repeat == "repeat-x" || layer.repeat == "repeat-y" || layer.repeat == "repeat"
    requires LayerSize(layer.size, iw, ih, cw, ch).Ok?
    ensures var image := Bitmap(ImageUrl(layer.image).value, iw, ih);
      ImageOutcome(layer, Some((iw, ih)), cw, ch) ==
        Resolved(Usable(ImageTile(image, LayerSize(layer.size, iw, ih, cw, ch).value)))
  {
    var url := ImageUrl(layer.image).value;
    var size := LayerSize(layer.size, iw, ih, cw, ch).value;
    var image := Bitmap(url, iw, ih);
    var position := LayerPosition(layer.position, size, cw, ch);
    assert RepeatCommands(layer.repeat, image, position, size, cw, ch).Some?;
    assert ImageDrawing(url, (iw, ih), layer, cw, ch) ==
      if PatternThrows(layer.repeat, image, size) then Err("InvalidStateError: the image tile has a zero side")
      else Ok(RepeatCommands(layer.repeat, image, position, size, cw, ch));
  }
}
