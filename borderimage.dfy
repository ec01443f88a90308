/** `border-image`: the canvas and the picture are each cut into nine cells
    by four insets, and each of the eight outer picture cells is drawn into
    the matching canvas cell, stretched, as a pattern, or as a grid of tiles. */
module BorderImage {
  import opened Js
  import opened Wrappers
  import opened Canvas2D
  import opened Border
  import opened StyleMaps
  import BackgroundImage

  /** A rectangle: a destination area on the canvas or a source slice of the picture. */
  datatype Box = Box(x: Num, y: Num, w: Num, h: Num)

  /** The nine cells of a `w` by `h` rectangle cut by four insets: the
      corners (top-left, top-right, bottom-right, bottom-left), then the edges
      (top, right, bottom, left), then the centre. */
  function NineCells(w: Num, h: Num, top: Num, right: Num, bottom: Num, left: Num): (r: seq<Box>)
    ensures |r| == 9
  {
    var midW := Sub(Sub(w, left), right);
    var midH := Sub(Sub(h, top), bottom);
    var rightX := Sub(w, right);
    var bottomY := Sub(h, bottom);
    [Box(Int(0), Int(0), left, top), Box(rightX, Int(0), right, top),
     Box(rightX, bottomY, right, bottom), Box(Int(0), bottomY, left, bottom),
     Box(left, Int(0), midW, top), Box(rightX, top, right, midH),
     Box(left, bottomY, midW, bottom), Box(Int(0), top, left, midH),
     Box(left, top, midW, midH)]
  }

  /** `computeNineSliceAreas`: the cells of the canvas, the border widths
      (top, right, bottom, left) divided by the size of one canvas pixel. */
  function NineSliceAreas(w: nat, h: nat, widths: seq<Num>, unitPixel: Num): (r: seq<Box>)
    requires |widths| == 4
    ensures |r| == 9
  {
    NineCells(Int(w), Int(h), Div(widths[0], unitPixel), Div(widths[1], unitPixel),
      Div(widths[2], unitPixel), Div(widths[3], unitPixel))
  }

  /** `computeImageSlices`: the cells of the picture, cut by the slice values. */
  function ImageSlices(iw: nat, ih: nat, slice: seq<Num>): (r: seq<Box>)
    requires |slice| == 4
    ensures |r| == 9
  {
    NineCells(Int(iw), Int(ih), slice[0], slice[1], slice[2], slice[3])
  }

  // ---------------------------------------------------------------------
  // The nine cells partition the rectangle

  predicate FiniteBox(b: Box) { b.x.Fin? && b.y.Fin? && b.w.Fin? && b.h.Fin? }

  /** Two finite boxes share no interior point: they are apart along one axis. */
  predicate Apart(a: Box, b: Box)
    requires FiniteBox(a) && FiniteBox(b)
  {
    a.x.v + a.w.v <= b.x.v || b.x.v + b.w.v <= a.x.v ||
    a.y.v + a.h.v <= b.y.v || b.y.v + b.h.v <= a.y.v
  }

  predicate AllFinite(cells: seq<Box>) { forall i :: 0 <= i < |cells| ==> FiniteBox(cells[i]) }

  /** The summed area of finite boxes. */
  function AreaSum(cells: seq<Box>): real
    requires AllFinite(cells)
  {
    if cells == [] then 0.0 else AreaSum(cells[..|cells| - 1]) + cells[|cells| - 1].w.v * cells[|cells| - 1].h.v
  }

  /** With non-negative insets that fit (left + right at most the width, top
      + bottom at most the height) the nine cells have non-negative sizes,
      lie inside the rectangle, overlap pairwise nowhere and cover its whole
      area. */
  lemma NineCellsPartition(w: real, h: real, top: real, right: real, bottom: real, left: real)
    requires top >= 0.0 && right >= 0.0 && bottom >= 0.0 && left >= 0.0
    requires left + right <= w && top + bottom <= h
    ensures var cells := NineCells(Fin(w), Fin(h), Fin(top), Fin(right), Fin(bottom), Fin(left));
      AllFinite(cells) &&
      (forall i :: 0 <= i < 9 ==>
        cells[i].w.v >= 0.0 && cells[i].h.v >= 0.0 && 0.0 <= cells[i].x.v && 0.0 <= cells[i].y.v &&
        cells[i].x.v + cells[i].w.v <= w && cells[i].y.v + cells[i].h.v <= h) &&
      (forall i, j :: 0 <= i < j < 9 ==> Apart(cells[i], cells[j])) &&
      AreaSum(cells) == w * h
  {
    NineCellsArea(w, h, top, right, bottom, left);
  }

  lemma NineCellsArea(w: real, h: real, top: real, right: real, bottom: real, left: real)
    ensures var cells := NineCells(Fin(w), Fin(h), Fin(top), Fin(right), Fin(bottom), Fin(left));
      AllFinite(cells) && AreaSum(cells) == w * h
  {
    var cells := NineCells(Fin(w), Fin(h), Fin(top), Fin(right), Fin(bottom), Fin(left));
    var mw, mh := w - left - right, h - top - bottom;
    AreaSumNine(cells);
    assert Product(cells, 0) == left * top && Product(cells, 1) == right * top;
    assert Product(cells, 2) == right * bottom && Product(cells, 3) == left * bottom;
    assert Product(cells, 4) == mw * top && Product(cells, 5) == right * mh;
    assert Product(cells, 6) == mw * bottom && Product(cells, 7) == left * mh;
    assert Product(cells, 8) == mw * mh;
    NineProducts(w, h, top, right, bottom, left);
  }

  function Product(cells: seq<Box>, k: nat): real
    requires AllFinite(cells) && k < |cells|
  {
    cells[k].w.v * cells[k].h.v
  }

  lemma AreaSumNine(cells: seq<Box>)
    requires AllFinite(cells) && |cells| == 9
    ensures AreaSum(cells) ==
      Product(cells, 0) + Product(cells, 1) + Product(cells, 2) + Product(cells, 3) + Product(cells, 4) +
      Product(cells, 5) + Product(cells, 6) + Product(cells, 7) + Product(cells, 8)
  {
    forall k | 0 <= k < 9 ensures AreaSum(cells[..k + 1]) == AreaSum(cells[..k]) + Product(cells, k) {
      AreaSumSnoc(cells, k);
    }
    assert cells[..0] == [] && cells[..9] == cells;
  }

  lemma AreaSumSnoc(cells: seq<Box>, k: nat)
    requires AllFinite(cells) && k < |cells|
    ensures AreaSum(cells[..k + 1]) == AreaSum(cells[..k]) + cells[k].w.v * cells[k].h.v
  {
    assert cells[..k + 1][..k] == cells[..k];
  }

  lemma NineProducts(w: real, h: real, top: real, right: real, bottom: real, left: real)
    ensures var mw, mh := w - left - right, h - top - bottom;
      left * top + right * top + right * bottom + left * bottom +
      mw * top + right * mh + mw * bottom + left * mh + mw * mh == w * h
  {
    var mw, mh := w - left - right, h - top - bottom;
    assert left + mw + right == w;
    assert top + mh + bottom == h;
    assert (left + mw + right) * (top + mh + bottom) ==
      left * top + right * top + right * bottom + left * bottom +
      mw * top + right * mh + mw * bottom + left * mh + mw * mh;
  }

  /** The canvas areas partition the canvas. */
  lemma AreasPartition(w: nat, h: nat, widths: seq<Num>, unitPixel: Num)
    requires |widths| == 4 && unitPixel.Fin? && unitPixel.v > 0.0
    requires forall i :: 0 <= i < 4 ==> widths[i].Fin? && widths[i].v >= 0.0
    requires widths[3].v / unitPixel.v + widths[1].v / unitPixel.v <= w as real
    requires widths[0].v / unitPixel.v + widths[2].v / unitPixel.v <= h as real
    ensures var areas := NineSliceAreas(w, h, widths, unitPixel);
      AllFinite(areas) && (forall i, j :: 0 <= i < j < 9 ==> Apart(areas[i], areas[j])) &&
      AreaSum(areas) == (w * h) as real
  {
    var u := unitPixel.v;
    var t, r, b, l := widths[0].v / u, widths[1].v / u, widths[2].v / u, widths[3].v / u;
    Quotient(widths[0], u);
    Quotient(widths[1], u);
    Quotient(widths[2], u);
    Quotient(widths[3], u);
    assert NineSliceAreas(w, h, widths, unitPixel) == NineCells(Fin(w as real), Fin(h as real), Fin(t), Fin(r), Fin(b), Fin(l));
    NineCellsPartition(w as real, h as real, t, r, b, l);
  }

  /** A finite, non-negative width over a positive pixel size. */
  lemma Quotient(width: Num, u: real)
    requires width.Fin? && width.v >= 0.0 && u > 0.0
    ensures Div(width, Fin(u)) == Fin(width.v / u) && width.v / u >= 0.0
  {
  }

  /** The picture slices partition the picture in the same way. */
  lemma SlicesPartition(iw: nat, ih: nat, slice: seq<Num>)
    requires |slice| == 4 && forall i :: 0 <= i < 4 ==> slice[i].Fin? && slice[i].v >= 0.0
    requires slice[3].v + slice[1].v <= iw as real && slice[0].v + slice[2].v <= ih as real
    ensures var slices := ImageSlices(iw, ih, slice);
      AllFinite(slices) && (forall i, j :: 0 <= i < j < 9 ==> Apart(slices[i], slices[j])) &&
      AreaSum(slices) == (iw * ih) as real
  {
    assert slice[0] == Fin(slice[0].v) && slice[1] == Fin(slice[1].v);
    assert slice[2] == Fin(slice[2].v) && slice[3] == Fin(slice[3].v);
    NineCellsPartition(iw as real, ih as real, slice[0].v, slice[1].v, slice[2].v, slice[3].v);
  }

  // ---------------------------------------------------------------------
  // Drawing one slice

  /** `save(); beginPath(); rect(area); clip()`. */
  function ClipTo(a: Box): seq<DrawCmd> { [Save, BeginPath, Rect(a.x, a.y, a.w, a.h), Clip] }

  /** `drawStretchedSlice`: the slice scaled to the whole area. */
  function StretchedSlice(image: ImageSource, s: Box, a: Box): DrawCmd {
    DrawImageRegion(image, s.x, s.y, s.w, s.h, a.x, a.y, a.w, a.h)
  }

  /** `createSliceCanvas`: a canvas of the slice's size holding the slice. */
  function SliceCanvas(image: ImageSource, s: Box): ImageSource {
    CanvasImage(CanvasDim(s.w), CanvasDim(s.h), [DrawImageRegion(image, s.x, s.y, s.w, s.h, Int(0), Int(0), s.w, s.h)])
  }

  /** `drawRepeatedSlice`: the area, clipped, filled with a pattern of the slice. */
  function RepeatedSlice(image: ImageSource, s: Box, a: Box): seq<DrawCmd> {
    ClipTo(a) + [SetFillStyle(Pattern(SliceCanvas(image, s), "repeat")), FillRect(a.x, a.y, a.w, a.h), Restore]
  }

  /** The area, clipped, holding the grid of tiles of the two nested loops;
      `None` when the loops never end. */
  function TiledSlice(a: Box, colBound: Num, rowBound: Num, tile: (nat, nat) -> DrawCmd): Option<seq<DrawCmd>> {
    match BackgroundImage.Loops(colBound, rowBound)
    case None => None
    case Some((cols, rows)) => Some(ClipTo(a) + BackgroundImage.Grid(cols, rows, tile) + [Restore])
  }

  /** `Math.max(1, Math.round(d / s))`: how many tiles `round` draws along an axis. */
  function RoundedCount(d: Num, s: Num): Num { MathMax(Int(1), MathRound(Div(d, s))) }

  function RoundedTile(image: ImageSource, s: Box, a: Box, size: (Num, Num), x: nat, y: nat): DrawCmd {
    DrawImageRegion(image, s.x, s.y, s.w, s.h,
      Add(a.x, Mul(Int(x), size.0)), Add(a.y, Mul(Int(y), size.1)), size.0, size.1)
  }

  /** `drawRoundedSlice`: a grid of tiles squeezed or stretched so that a
      whole number of them fills the area; `None` when its loops never end. */
  function RoundedSlice(image: ImageSource, s: Box, a: Box): Option<seq<DrawCmd>> {
    var hc, vc := RoundedCount(a.w, s.w), RoundedCount(a.h, s.h);
    var size := (Div(a.w, hc), Div(a.h, vc));
    TiledSlice(a, hc, vc, (x: nat, y: nat) => RoundedTile(image, s, a, size, x, y))
  }

  /** `Math.max(1, Math.floor(d / s))`: how many tiles `space` draws along an axis. */
  function SpacedCount(d: Num, s: Num): Num { MathMax(Int(1), MathFloor(Div(d, s))) }

  /** The gap between two tiles: the room left over shared among the
      `count - 1` gaps, or 0 for a single tile. */
  function SpacedGap(d: Num, s: Num, count: Num): Num {
    if Less(Int(1), count) then Div(Sub(d, Mul(count, s)), Sub(count, Int(1))) else Int(0)
  }

  function SpacedTile(image: ImageSource, s: Box, a: Box, gaps: (Num, Num), x: nat, y: nat): DrawCmd {
    DrawImageRegion(image, s.x, s.y, s.w, s.h,
      Add(a.x, Mul(Int(x), Add(s.w, gaps.0))), Add(a.y, Mul(Int(y), Add(s.h, gaps.1))), s.w, s.h)
  }

  /** `drawSpacedSlice`: a grid of tiles at their own size, spread so that
      the first and the last touch the edges of the area; `None` when its
      loops never end. */
  function SpacedSlice(image: ImageSource, s: Box, a: Box): Option<seq<DrawCmd>> {
    var hc, vc := SpacedCount(a.w, s.w), SpacedCount(a.h, s.h);
    var gaps := (SpacedGap(a.w, s.w, hc), SpacedGap(a.h, s.h, vc));
    TiledSlice(a, hc, vc, (x: nat, y: nat) => SpacedTile(image, s, a, gaps, x, y))
  }

  /** The `border-image-repeat` switch as written: an unknown mode draws nothing. */
  function SliceCommandsAsWritten(mode: string, image: ImageSource, s: Box, a: Box): Option<seq<DrawCmd>> {
    if mode == "stretch" then Some([StretchedSlice(image, s, a)])
    else if mode == "repeat" then Some(RepeatedSlice(image, s, a))
    else if mode == "round" then RoundedSlice(image, s, a)
    else if mode == "space" then SpacedSlice(image, s, a)
    else Some([])
  }

  /** A slice with a positive, finite width and height. */
  predicate Drawable(s: Box) { s.w.Fin? && s.h.Fin? && s.w.v > 0.0 && s.h.v > 0.0 }

  /** The switch with the tile counts guarded: `round` and `space` draw
      nothing for a slice without area. */
  function SliceCommands(mode: string, image: ImageSource, s: Box, a: Box): (r: Option<seq<DrawCmd>>)
    ensures (mode == "round" || mode == "space") && !Drawable(s) ==> r == Some([])
    ensures !((mode == "round" || mode == "space") && !Drawable(s)) ==> r == SliceCommandsAsWritten(mode, image, s, a)
  {
    if (mode == "round" || mode == "space") && !Drawable(s) then Some([])
    else SliceCommandsAsWritten(mode, image, s, a)
  }

  // ---------------------------------------------------------------------
  // Tile layouts

  /** `round` along one axis, for a slice of positive size `sw` and an area
      of finite size `dw`: at least one tile, a whole number of them, each
      `dw / count` wide, tile `k` starting `k` widths from the edge and the
      last one ending at the far edge. */
  lemma RoundedFills(dx: real, dw: real, sw: real)
    requires sw > 0.0
    ensures var count := RoundedCount(Fin(dw), Fin(sw));
      count.Fin? && count.v >= 1.0 && count.v == Floor(count.v) as real &&
      var size := Div(Fin(dw), count);
      size.Fin? && count.v * size.v == dw &&
      Add(Fin(dx), Mul(Int(Floor(count.v) - 1), size)) == Fin(dx + dw - size.v)
  {
    var c := RoundedCount(Fin(dw), Fin(sw)).v;
    assert RoundedCount(Fin(dw), Fin(sw)) == Fin(c);
    var size := dw / c;
    assert Div(Fin(dw), Fin(c)) == Fin(size);
    assert c * size == dw;
    var n := Floor(c);
    assert (n - 1) as real * size == c * size - size;
  }

  /** `space` along one axis, for a slice of positive size `sw` no larger
      than the area `dw`: when more than one tile fits, the first starts at
      the near edge and the last ends exactly at the far edge. */
  lemma SpacedFills(dx: real, dw: real, sw: real)
    requires sw > 0.0
    ensures var count := SpacedCount(Fin(dw), Fin(sw));
      count.Fin? && count.v >= 1.0 && count.v == Floor(count.v) as real
    ensures var count := SpacedCount(Fin(dw), Fin(sw));
      var gap := SpacedGap(Fin(dw), Fin(sw), count);
      count.v > 1.0 ==>
        gap.Fin? && gap.v >= 0.0 &&
        dx + (count.v - 1.0) * (sw + gap.v) + sw == dx + dw
  {
    var c := SpacedCount(Fin(dw), Fin(sw)).v;
    assert SpacedCount(Fin(dw), Fin(sw)) == Fin(c);
    if c > 1.0 {
      var f := Floor(dw / sw) as real;
      assert c == f;
      BackgroundImage.FloorTimes(dw, sw);
      assert Mul(Fin(c), Fin(sw)) == Fin(c * sw);
      var g := (dw - c * sw) / (c - 1.0);
      assert SpacedGap(Fin(dw), Fin(sw), Fin(c)) == Fin(g);
      assert (c - 1.0) * g == dw - c * sw;
      assert (c - 1.0) * (sw + g) + sw == c * sw + (c - 1.0) * g;
    }
  }

  // ---------------------------------------------------------------------
  // The eight outer cells

  /** The commands for one cell: with the guard against a slice without area
      (`guarded`), or as written. */
  function CellCommands(guarded: bool, mode: string, image: ImageSource, s: Box, a: Box): Option<seq<DrawCmd>> {
    if guarded then SliceCommands(mode, image, s, a) else SliceCommandsAsWritten(mode, image, s, a)
  }

  /** The commands for the first `n` cells, cell `i` of the canvas paired
      with cell `i` of the picture and the centre (cell 8) left out; `None`
      once a cell's loops never end. */
  function Pieces(areas: seq<Box>, slices: seq<Box>, guarded: bool, mode: string, image: ImageSource, n: nat): Option<seq<DrawCmd>>
    requires |areas| == 9 && |slices| == 9 && n <= 9
  {
    if n == 0 then Some([])
    else
      match Pieces(areas, slices, guarded, mode, image, n - 1)
      case None => None
      case Some(p) =>
        if n - 1 == 8 then Some(p)
        else
          match CellCommands(guarded, mode, image, slices[n - 1], areas[n - 1])
          case None => None
          case Some(q) => Some(p + q)
  }

  /** The picture as drawn, from its URL with the `url(...)` wrapper removed. */
  function Picture(p: BorderImageParams, natural: (nat, nat)): ImageSource {
    Bitmap(BackgroundImage.UrlReplace(p.source), natural.0, natural.1)
  }

  /** What the `onload` handler draws as written; `None` when it never ends. */
  function BorderImageDrawingAsWritten(p: BorderImageParams, unitPixel: Num, natural: (nat, nat), w: nat, h: nat): Option<seq<DrawCmd>>
    requires |p.slice| == 4 && |p.width| == 4
  {
    var areas := NineSliceAreas(w, h, p.width, unitPixel);
    Pieces(areas, ImageSlices(natural.0, natural.1, p.slice), false, p.repeat, Picture(p, natural), |areas|)
  }

  /** What the `onload` handler draws with the guarded tile counts. */
  function BorderImageDrawing(p: BorderImageParams, unitPixel: Num, natural: (nat, nat), w: nat, h: nat): Option<seq<DrawCmd>>
    requires |p.slice| == 4 && |p.width| == 4
  {
    var areas := NineSliceAreas(w, h, p.width, unitPixel);
    Pieces(areas, ImageSlices(natural.0, natural.1, p.slice), true, p.repeat, Picture(p, natural), |areas|)
  }

  /** One more cell: the centre adds nothing, any other cell its commands,
      and a cell that never finishes stops the rest. */
  lemma PiecesNext(areas: seq<Box>, slices: seq<Box>, guarded: bool, mode: string, image: ImageSource, n: nat)
    requires |areas| == 9 && |slices| == 9 && n < 9
    requires Pieces(areas, slices, guarded, mode, image, n).Some?
    ensures n == 8 ==> Pieces(areas, slices, guarded, mode, image, n + 1) == Pieces(areas, slices, guarded, mode, image, n)
    ensures n != 8 ==>
      (Pieces(areas, slices, guarded, mode, image, n + 1).Some? <==> CellCommands(guarded, mode, image, slices[n], areas[n]).Some?)
    ensures n != 8 && CellCommands(guarded, mode, image, slices[n], areas[n]).Some? ==>
      Pieces(areas, slices, guarded, mode, image, n + 1).value ==
      Pieces(areas, slices, guarded, mode, image, n).value + CellCommands(guarded, mode, image, slices[n], areas[n]).value
  {
  }

  /** Once a cell never finishes, the later cells are never reached. */
  lemma {:induction false} PiecesStuck(areas: seq<Box>, slices: seq<Box>, guarded: bool, mode: string, image: ImageSource, k: nat, n: nat)
    requires |areas| == 9 && |slices| == 9 && k <= n <= 9
    requires Pieces(areas, slices, guarded, mode, image, k).None?
    ensures Pieces(areas, slices, guarded, mode, image, n).None?
  {
    if n > k {
      PiecesStuck(areas, slices, guarded, mode, image, k, n - 1);
    }
  }

  /** With `stretch` every outer cell is drawn exactly once: command `i` is
      picture cell `i` scaled to canvas cell `i`, and the centre is not drawn. */
  lemma {:induction false} StretchPieces(areas: seq<Box>, slices: seq<Box>, guarded: bool, image: ImageSource, n: nat)
    requires |areas| == 9 && |slices| == 9 && n <= 9
    ensures var r := Pieces(areas, slices, guarded, "stretch", image, n);
      r.Some? && |r.value| == (if n == 9 then 8 else n) &&
      forall i :: 0 <= i < |r.value| ==> r.value[i] == StretchedSlice(image, slices[i], areas[i])
  {
    if n > 0 {
      StretchPieces(areas, slices, guarded, image, n - 1);
    }
  }

  /** An unknown repeat mode draws nothing at all. */
  lemma {:induction false} UnknownModeNothing(areas: seq<Box>, slices: seq<Box>, guarded: bool, mode: string, image: ImageSource, n: nat)
    requires |areas| == 9 && |slices| == 9 && n <= 9
    requires mode !in {"stretch", "repeat", "round", "space"}
    ensures Pieces(areas, slices, guarded, mode, image, n) == Some([])
  {
    if n > 0 {
      UnknownModeNothing(areas, slices, guarded, mode, image, n - 1);
      var q := CellCommands(guarded, mode, image, slices[n - 1], areas[n - 1]);
      assert q == Some([]);
      assert [] + q.value == [];
    }
  }

  // ---------------------------------------------------------------------
  // Termination

  /** A number that is not an infinity: finite or NaN, as `parseInt` gives. */
  predicate NotInfinite(n: Num) { n.Fin? || n.NaN? }

  predicate BoxNotInfinite(b: Box) {
    NotInfinite(b.x) && NotInfinite(b.y) && NotInfinite(b.w) && NotInfinite(b.h)
  }

  lemma SubNotInfinite(a: Num, b: Num)
    requires NotInfinite(a) && NotInfinite(b)
    ensures NotInfinite(Sub(a, b))
  {
  }

  lemma CellsNotInfinite(w: nat, h: nat, top: Num, right: Num, bottom: Num, left: Num)
    requires NotInfinite(top) && NotInfinite(right) && NotInfinite(bottom) && NotInfinite(left)
    ensures var cells := NineCells(Int(w), Int(h), top, right, bottom, left);
      forall i :: 0 <= i < 9 ==> BoxNotInfinite(cells[i])
  {
    SubNotInfinite(Int(w), left);
    SubNotInfinite(Sub(Int(w), left), right);
    SubNotInfinite(Int(h), top);
    SubNotInfinite(Sub(Int(h), top), bottom);
    SubNotInfinite(Int(w), right);
    SubNotInfinite(Int(h), bottom);
  }

  /** With a drawable slice and an area that is not infinite, the tile counts
      are finite or NaN, so both tiling loops end. */
  lemma GuardedSliceEnds(mode: string, image: ImageSource, s: Box, a: Box)
    requires BoxNotInfinite(a)
    ensures SliceCommands(mode, image, s, a).Some?
  {
    if (mode == "round" || mode == "space") && Drawable(s) {
      assert NotInfinite(Div(a.w, s.w)) && NotInfinite(Div(a.h, s.h));
      assert NotInfinite(RoundedCount(a.w, s.w)) && NotInfinite(RoundedCount(a.h, s.h));
      assert NotInfinite(SpacedCount(a.w, s.w)) && NotInfinite(SpacedCount(a.h, s.h));
    }
  }

  lemma {:induction false} GuardedPiecesEnd(areas: seq<Box>, slices: seq<Box>, mode: string, image: ImageSource, n: nat)
    requires |areas| == 9 && |slices| == 9 && n <= 9
    requires forall i :: 0 <= i < 9 ==> BoxNotInfinite(areas[i])
    ensures Pieces(areas, slices, true, mode, image, n).Some?
  {
    if n > 0 {
      GuardedPiecesEnd(areas, slices, mode, image, n - 1);
      GuardedSliceEnds(mode, image, slices[n - 1], areas[n - 1]);
    }
  }

  /** `parseInt` never gives an infinity, so neither do the parsed widths. */
  lemma ParsedWidthsNotInfinite(m: StyleMap)
    requires HasBorderImage(m)
    ensures forall i :: 0 <= i < 4 ==> NotInfinite(ParseBorderImage(m).value.width[i])
  {
  }

  /** With the guard, drawing a border image always ends when the pixel size
      is a finite non-zero number and the widths are finite or NaN (as
      `parseInt` gives them). */
  lemma GuardedDrawingEnds(p: BorderImageParams, unitPixel: Num, natural: (nat, nat), w: nat, h: nat)
    requires |p.slice| == 4 && |p.width| == 4
    requires unitPixel.Fin? && unitPixel.v != 0.0
    requires forall i :: 0 <= i < 4 ==> NotInfinite(p.width[i])
    ensures BorderImageDrawing(p, unitPixel, natural, w, h).Some?
  {
    forall i | 0 <= i < 4 ensures NotInfinite(Div(p.width[i], unitPixel)) {
    }
    CellsNotInfinite(w, h, Div(p.width[0], unitPixel), Div(p.width[1], unitPixel),
      Div(p.width[2], unitPixel), Div(p.width[3], unitPixel));
    var areas := NineSliceAreas(w, h, p.width, unitPixel);
    GuardedPiecesEnd(areas, ImageSlices(natural.0, natural.1, p.slice), p.repeat, Picture(p, natural), |areas|);
  }

  /** The default slice of 0 with `round`, a positive pixel size and
      positive top and left border widths. */
  predicate ZeroSliceRound(p: BorderImageParams, unitPixel: Num) {
    |p.width| == 4 && p.slice == [Int(0), Int(0), Int(0), Int(0)] && p.repeat == "round" &&
    unitPixel.Fin? && unitPixel.v > 0.0 &&
    p.width[0].Fin? && p.width[0].v > 0.0 && p.width[3].Fin? && p.width[3].v > 0.0
  }

  /** As written, the default slice of 0 with `round` never finishes on a
      canvas whose top and left borders are drawn: the top-left corner's tile
      counts are `max(1, round(width / 0))`, which is +Infinity. (With the
      guard the same border image is drawn: `GuardedDrawingEnds`.) */
  lemma ZeroSliceNeverEnds(p: BorderImageParams, unitPixel: Num, natural: (nat, nat), w: nat, h: nat)
    requires ZeroSliceRound(p, unitPixel)
    ensures BorderImageDrawingAsWritten(p, unitPixel, natural, w, h).None?
  {
    var areas := NineSliceAreas(w, h, p.width, unitPixel);
    var slices := ImageSlices(natural.0, natural.1, p.slice);
    FirstAreaPositive(w, h, p.width, unitPixel);
    FirstCell(Int(natural.0), Int(natural.1), Int(0), Int(0), Int(0), Int(0));
    ZeroCornerStuck(areas, slices, Picture(p, natural));
  }

  /** The top-left canvas cell is as wide as the left border and as high as
      the top border, in canvas pixels. */
  lemma FirstAreaPositive(w: nat, h: nat, widths: seq<Num>, unitPixel: Num)
    requires |widths| == 4 && unitPixel.Fin? && unitPixel.v > 0.0
    requires widths[0].Fin? && widths[0].v > 0.0 && widths[3].Fin? && widths[3].v > 0.0
    ensures var a := NineSliceAreas(w, h, widths, unitPixel)[0];
      a.x == Int(0) && a.y == Int(0) && a.w.Fin? && a.w.v > 0.0 && a.h.Fin? && a.h.v > 0.0
  {
    PositiveRatio(widths[3].v, unitPixel.v);
    PositiveRatio(widths[0].v, unitPixel.v);
    FirstCell(Int(w), Int(h), Div(widths[0], unitPixel), Div(widths[1], unitPixel),
      Div(widths[2], unitPixel), Div(widths[3], unitPixel));
  }

  /** A zero slice in the first cell, drawn with `round` into a cell of
      positive size, stops every later cell. */
  lemma ZeroCornerStuck(areas: seq<Box>, slices: seq<Box>, image: ImageSource)
    requires |areas| == 9 && |slices| == 9 && slices[0] == Box(Int(0), Int(0), Int(0), Int(0))
    requires areas[0].x == Int(0) && areas[0].y == Int(0)
    requires areas[0].w.Fin? && areas[0].w.v > 0.0 && areas[0].h.Fin? && areas[0].h.v > 0.0
    ensures Pieces(areas, slices, false, "round", image, |areas|).None?
  {
    ZeroCornerNeverEnds(image, areas[0].w.v, areas[0].h.v);
    FirstCellStuck(areas, slices, false, "round", image);
  }

  lemma FirstCell(w: Num, h: Num, top: Num, right: Num, bottom: Num, left: Num)
    ensures NineCells(w, h, top, right, bottom, left)[0] == Box(Int(0), Int(0), left, top)
  {
  }

  lemma FirstCellStuck(areas: seq<Box>, slices: seq<Box>, guarded: bool, mode: string, image: ImageSource)
    requires |areas| == 9 && |slices| == 9
    requires CellCommands(guarded, mode, image, slices[0], areas[0]).None?
    ensures Pieces(areas, slices, guarded, mode, image, |areas|).None?
  {
    assert Pieces(areas, slices, guarded, mode, image, 1).None?;
    PiecesStuck(areas, slices, guarded, mode, image, 1, |areas|);
  }

  lemma PositiveRatio(a: real, b: real)
    requires a > 0.0 && b > 0.0
    ensures a / b > 0.0
  {
  }

  lemma ZeroCornerNeverEnds(image: ImageSource, left: real, top: real)
    requires left > 0.0 && top > 0.0
    ensures SliceCommandsAsWritten("round", image, Box(Int(0), Int(0), Int(0), Int(0)), Box(Int(0), Int(0), Fin(left), Fin(top))).None?
  {
    assert RoundedCount(Fin(left), Int(0)) == PosInf;
    assert RoundedCount(Fin(top), Int(0)) == PosInf;
  }

  // ---------------------------------------------------------------------
  // Drawing

  /** The tiled modes: clip to the area, the grid of tiles, restore; when the
      loops never end nothing after the clip is drawn. */
  method DrawTiledSlice(ctx: Context, a: Box, colBound: Num, rowBound: Num, tile: (nat, nat) -> DrawCmd) returns (finished: bool)
    modifies ctx
    ensures ctx.width == old(ctx.width) && ctx.height == old(ctx.height)
    ensures finished == TiledSlice(a, colBound, rowBound, tile).Some?
    ensures finished ==> ctx.log == old(ctx.log) + TiledSlice(a, colBound, rowBound, tile).value
  {
    ctx.DoAll(ClipTo(a));
    finished := BackgroundImage.DrawGrid(ctx, colBound, rowBound, tile);
    if finished {
      ctx.Do(Restore);
    }
  }

  /** `drawRoundedSlice` on the context. */
  method DrawRoundedSlice(ctx: Context, image: ImageSource, s: Box, a: Box) returns (finished: bool)
    modifies ctx
    ensures ctx.width == old(ctx.width) && ctx.height == old(ctx.height)
    ensures finished == RoundedSlice(image, s, a).Some?
    ensures finished ==> ctx.log == old(ctx.log) + RoundedSlice(image, s, a).value
  {
    var horizontalCount, verticalCount := RoundedCount(a.w, s.w), RoundedCount(a.h, s.h);
    var size := (Div(a.w, horizontalCount), Div(a.h, verticalCount));
    finished := DrawTiledSlice(ctx, a, horizontalCount, verticalCount,
      (x: nat, y: nat) => RoundedTile(image, s, a, size, x, y));
  }

  /** `drawSpacedSlice` on the context. */
  method DrawSpacedSlice(ctx: Context, image: ImageSource, s: Box, a: Box) returns (finished: bool)
    modifies ctx
    ensures ctx.width == old(ctx.width) && ctx.height == old(ctx.height)
    ensures finished == SpacedSlice(image, s, a).Some?
    ensures finished ==> ctx.log == old(ctx.log) + SpacedSlice(image, s, a).value
  {
    var horizontalCount, verticalCount := SpacedCount(a.w, s.w), SpacedCount(a.h, s.h);
    var gaps := (SpacedGap(a.w, s.w, horizontalCount), SpacedGap(a.h, s.h, verticalCount));
    finished := DrawTiledSlice(ctx, a, horizontalCount, verticalCount,
      (x: nat, y: nat) => SpacedTile(image, s, a, gaps, x, y));
  }

  /** One outer cell: the `border-image-repeat` switch, with the tile counts
      guarded against a slice without area. */
  method DrawSlice(ctx: Context, mode: string, image: ImageSource, s: Box, a: Box) returns (finished: bool)
    modifies ctx
    ensures ctx.width == old(ctx.width) && ctx.height == old(ctx.height)
    ensures finished == SliceCommands(mode, image, s, a).Some?
    ensures finished ==> ctx.log == old(ctx.log) + SliceCommands(mode, image, s, a).value
  {
    if (mode == "round" || mode == "space") && !Drawable(s) {
      return true;
    }
    if mode == "stretch" {
      ctx.Do(StretchedSlice(image, s, a));
      finished := true;
    } else if mode == "repeat" {
      ctx.DoAll(ClipTo(a));
      ctx.Do(SetFillStyle(Pattern(SliceCanvas(image, s), "repeat")));
      ctx.Do(FillRect(a.x, a.y, a.w, a.h));
      ctx.Do(Restore);
      finished := true;
    } else if mode == "round" {
      assert SliceCommands(mode, image, s, a) == RoundedSlice(image, s, a);
      finished := DrawRoundedSlice(ctx, image, s, a);
    } else if mode == "space" {
      assert SliceCommands(mode, image, s, a) == SpacedSlice(image, s, a);
      finished := DrawSpacedSlice(ctx, image, s, a);
    } else {
      finished := true;
    }
  }

  /** One turn of the `forEach`: cell `index` drawn after the earlier ones,
      the centre skipped. */
  method DrawPiece(ctx: Context, areas: seq<Box>, slices: seq<Box>, mode: string, image: ImageSource,
                   index: nat, ghost start: seq<DrawCmd>) returns (finished: bool)
    requires |areas| == 9 && |slices| == 9 && index < 9
    requires Pieces(areas, slices, true, mode, image, index).Some?
    requires ctx.log == start + Pieces(areas, slices, true, mode, image, index).value
    modifies ctx
    ensures ctx.width == old(ctx.width) && ctx.height == old(ctx.height)
    ensures finished == Pieces(areas, slices, true, mode, image, index + 1).Some?
    ensures finished ==> ctx.log == start + Pieces(areas, slices, true, mode, image, index + 1).value
  {
    PiecesNext(areas, slices, true, mode, image, index);
    if index == 8 {
      return true;
    }
    ghost var earlier := Pieces(areas, slices, true, mode, image, index).value;
    ghost var cell := CellCommands(true, mode, image, slices[index], areas[index]);
    assert cell == SliceCommands(mode, image, slices[index], areas[index]);
    finished := DrawSlice(ctx, mode, image, slices[index], areas[index]);
    if finished {
      AppendAssociative(start, earlier, cell.value);
    }
  }

  /** The `forEach` over the nine cells, the centre skipped: each outer cell
      drawn in turn until one never finishes. */
  method DrawPieces(ctx: Context, areas: seq<Box>, slices: seq<Box>, mode: string, image: ImageSource) returns (finished: bool)
    requires |areas| == 9 && |slices| == 9
    modifies ctx
    ensures ctx.width == old(ctx.width) && ctx.height == old(ctx.height)
    ensures finished == Pieces(areas, slices, true, mode, image, |areas|).Some?
    ensures finished ==> ctx.log == old(ctx.log) + Pieces(areas, slices, true, mode, image, |areas|).value
  {
    var index := 0;
    while index < 9
      invariant index <= 9
      invariant ctx.width == old(ctx.width) && ctx.height == old(ctx.height)
      invariant Pieces(areas, slices, true, mode, image, index).Some?
      invariant ctx.log == old(ctx.log) + Pieces(areas, slices, true, mode, image, index).value
    {
      finished := DrawPiece(ctx, areas, slices, mode, image, index, old(ctx.log));
      if !finished {
        PiecesStuck(areas, slices, true, mode, image, index + 1, |areas|);
        return;
      }
      index := index + 1;
    }
    finished := true;
  }

  /** `drawBorderImage` once the picture has loaded (`natural` is its size)
      or failed to (`None`): the promise resolves to false on a failed load,
      to true once the eight outer cells are drawn, and never when a cell's
      loops never end. */
  method DrawBorderImage(ctx: Context, p: BorderImageParams, unitPixel: Num, loaded: Option<(nat, nat)>)
    returns (outcome: BackgroundImage.Outcome)
    requires |p.slice| == 4 && |p.width| == 4
    modifies ctx
    ensures ctx.width == old(ctx.width) && ctx.height == old(ctx.height)
    ensures loaded.None? ==> outcome == BackgroundImage.Resolved(false) && ctx.log == old(ctx.log)
    ensures loaded.Some? ==>
      (outcome == BackgroundImage.Resolved(true) <==>
        BorderImageDrawing(p, unitPixel, loaded.value, old(ctx.width), old(ctx.height)).Some?)
    ensures loaded.Some? && outcome != BackgroundImage.Resolved(true) ==> outcome == BackgroundImage.Frozen
    ensures loaded.Some? && outcome == BackgroundImage.Resolved(true) ==>
      ctx.log == old(ctx.log) + BorderImageDrawing(p, unitPixel, loaded.value, old(ctx.width), old(ctx.height)).value
  {
    if loaded.None? {
      return BackgroundImage.Resolved(false);
    }
    var natural := loaded.value;
    var finished := DrawPieces(ctx, NineSliceAreas(ctx.width, ctx.height, p.width, unitPixel),
      ImageSlices(natural.0, natural.1, p.slice), p.repeat, Picture(p, natural));
    outcome := if finished then BackgroundImage.Resolved(true) else BackgroundImage.Frozen;
  }
}
