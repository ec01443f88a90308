/** `drawBackground` of the newer renderer: every background layer is painted
    on a canvas of its own (colour, image, clip) and composited onto the
    element's canvas with the layer's blend mode, first layer first. */
module Background {
  import opened Js
  import opened Text
  import opened Wrappers
  import opened Canvas2D
  import opened CssUnit
  import opened StyleMaps
  import opened BackgroundLayers
  import BackgroundClip
  import BackgroundGradient
  import BackgroundImage
  import Parse

  /** How painting one layer canvas ends: with its calls, with an exception,
      or never (loops that do not end). */
  datatype LayerResult = Painted(log: seq<DrawCmd>) | Thrown | Hung

  /** How `drawBackground` ends: normally, in its `catch` (returning null),
      or never. */
  datatype Ending = Completed | Aborted | Frozen

  /** The renderer's wider parameters: the trigonometry of the gradients, the
      unit context of the element, the size of one canvas pixel, and the
      canvas operation of each CSS blend mode (`getCanvasBlendMode`). */
  datatype Env = Env(t: Trig, units: UnitContext, unitPixel: Num, blend: string -> string)

  /** `layer.color` is truthy. */
  predicate HasColor(layer: Layer) { layer.color.Some? && layer.color.value != "" }

  /** `layer.image` is truthy. */
  predicate HasImage(layer: Layer) { layer.image.Some? && layer.image.value != "" }

  predicate IsGradient(image: string) {
    StartsWith(image, "linear-gradient") || StartsWith(image, "radial-gradient")
  }

  predicate Clipped(layer: Layer) { layer.clip == "padding-box" || layer.clip == "content-box" }

  /** The fill of the whole canvas with the layer's colour, if it has one. */
  function ColorCommands(layer: Layer, w: nat, h: nat): seq<DrawCmd> {
    if HasColor(layer) then [SetFillStyle(Solid(CssText(layer.color.value))), FillRect(Int(0), Int(0), Int(w), Int(h))]
    else []
  }

  /** The clip `applyClipPath` sets for a `padding-box` or `content-box` layer. */
  function ClipFor(layer: Layer, m: StyleMap, w: nat, h: nat, env: Env): seq<DrawCmd> {
    if Clipped(layer) then
      BackgroundClip.ClipCommands(BackgroundClip.ElementClipBounds(layer.clip, m, w, h, env.units, env.unitPixel))
    else []
  }

  /** What the layer's image adds to its canvas as the code is written: a
      gradient, which may throw; any other image is handed to
      `drawBackgroundImage` under the name `layer` while that function reads
      `background`, so reading its image throws a TypeError. */
  function LayerImageAsWritten(layer: Layer, w: nat, h: nat, env: Env): LayerResult {
    if !HasImage(layer) then Painted([])
    else if !IsGradient(layer.image.value) then Thrown
    else
      match BackgroundGradient.GradientCommands(layer.image.value, w, h, env.t)
      case Err(_) => Thrown
      case Ok(gradient) => Painted(gradient)
  }

  /** A layer canvas as the code is written: the colour, then the image, and
      the clip last. */
  function PaintLayerAsWritten(layer: Layer, image: LayerResult, m: StyleMap, w: nat, h: nat, env: Env): LayerResult {
    match image
    case Painted(cmds) => Painted(ColorCommands(layer, w, h) + cmds + ClipFor(layer, m, w, h, env))
    case other => other
  }

  /** What the layer's image adds to its canvas: a gradient, which may throw,
      or a picture drawn once its load has settled, whose loops may not end. */
  function LayerImage(layer: Layer, loaded: Option<(nat, nat)>, w: nat, h: nat, env: Env): LayerResult {
    if !HasImage(layer) then Painted([])
    else if IsGradient(layer.image.value) then
      match BackgroundGradient.GradientCommands(layer.image.value, w, h, env.t)
      case Err(_) => Thrown
      case Ok(gradient) => Painted(gradient)
    else
      match BackgroundImage.ImageOutcome(layer, loaded, w, h)
      case Frozen => Hung
      case Resolved(true) =>
        Painted(BackgroundImage.ImageDrawing(BackgroundImage.ImageUrl(layer.image).value, loaded.value, layer, w, h).value.value)
      case _ => Painted([])
  }

  /** A layer canvas as evidently intended: the clip first, so that it bounds
      what follows, then the colour, then the gradient or the picture. */
  function PaintLayer(layer: Layer, image: LayerResult, m: StyleMap, w: nat, h: nat, env: Env): LayerResult {
    match image
    case Painted(image) => Painted(ClipFor(layer, m, w, h, env) + ColorCommands(layer, w, h) + image)
    case other => other
  }

  /** The calls that composite one painted layer canvas: the blend mode, then
      the canvas drawn at the origin at its own size. */
  function CompositeCommands(layer: Layer, log: seq<DrawCmd>, w: nat, h: nat, env: Env): seq<DrawCmd> {
    [SetComposite(env.blend(layer.blendMode)), DrawImage(CanvasImage(w, h, log), Int(0), Int(0), Int(w), Int(h))]
  }

  /** What one layer adds to the element's canvas and how the loop goes on:
      a painted layer sets its blend mode and is drawn, unless its canvas has
      a zero side, when `drawImage` throws an `InvalidStateError` after the
      blend mode is set; a layer that threw or hung adds nothing. */
  function CompositeLayer(layer: Layer, result: LayerResult, w: nat, h: nat, env: Env): (seq<DrawCmd>, Ending) {
    match result
    case Thrown => ([], Aborted)
    case Hung => ([], Frozen)
    case Painted(log) =>
      if w > 0 && h > 0 then (CompositeCommands(layer, log, w, h, env), Completed)
      else ([SetComposite(env.blend(layer.blendMode))], Aborted)
  }

  /** The `forEach` over the layers: each painted layer is composited in
      turn; an exception ends the loop in the `catch`, a hung layer ends
      everything. */
  function Composite(layers: seq<Layer>, results: seq<LayerResult>, w: nat, h: nat, env: Env): (r: (seq<DrawCmd>, Ending))
    requires |results| == |layers|
    ensures r.1 == Completed ==> |r.0| == 2 * |layers|
    ensures r.1 == Completed <==>
      (forall i :: 0 <= i < |results| ==> results[i].Painted?) && (layers == [] || (w > 0 && h > 0))
  {
    if layers == [] then ([], Completed)
    else
      var n := |layers| - 1;
      var before := Composite(layers[..n], results[..n], w, h, env);
      if before.1 != Completed then before
      else
        var step := CompositeLayer(layers[n], results[n], w, h, env);
        (before.0 + step.0, step.1)
  }

  /** The fill made when there are no layers. */
  function TransparentFill(w: nat, h: nat): seq<DrawCmd> {
    [SetFillStyle(Solid(CssText("transparent"))), FillRect(Int(0), Int(0), Int(w), Int(h))]
  }

  /** `drawBackground` as the code is written. */
  function BackgroundAsWritten(m: StyleMap, w: nat, h: nat, env: Env): (seq<DrawCmd>, Ending) {
    var layers := FirstLayers(m, LayerCount(m));
    if layers == [] then (TransparentFill(w, h), Completed)
    else Composite(layers, LayerResultsAsWritten(layers, m, w, h, env), w, h, env)
  }

  /** Each layer's canvas as the code is written. */
  function LayerResultsAsWritten(layers: seq<Layer>, m: StyleMap, w: nat, h: nat, env: Env): (rs: seq<LayerResult>)
  {
    seq(|layers|, i requires 0 <= i < |layers| => PaintLayerAsWritten(layers[i], LayerImageAsWritten(layers[i], w, h, env), m, w, h, env))
  }

  /** Each layer's canvas as evidently intended, `loads(i)` being how the
      picture of layer `i` loads. */
  function LayerResults(layers: seq<Layer>, loads: nat -> Option<(nat, nat)>, m: StyleMap, w: nat, h: nat, env: Env): (rs: seq<LayerResult>)
  {
    seq(|layers|, i requires 0 <= i < |layers| => PaintLayer(layers[i], LayerImage(layers[i], loads(i), w, h, env), m, w, h, env))
  }

  /** `drawBackground` as evidently intended; `loads[i]` is how the picture of
      layer `i` loads (its natural size, or `None` when it fails). */
  function BackgroundCorrected(m: StyleMap, loads: nat -> Option<(nat, nat)>, w: nat, h: nat, env: Env): (seq<DrawCmd>, Ending) {
    var layers := FirstLayers(m, LayerCount(m));
    if layers == [] then (TransparentFill(w, h), Completed)
    else Composite(layers, LayerResults(layers, loads, m, w, h, env), w, h, env)
  }

  // ---------------------------------------------------------------------
  // Properties of the compositing loop

  /** Once every layer is painted, layer `i` is composited at calls `2i` and
      `2i + 1`: its blend mode, then its canvas. */
  lemma {:induction false} CompositeOrder(layers: seq<Layer>, results: seq<LayerResult>, w: nat, h: nat, env: Env, i: nat)
    requires |results| == |layers| && i < |layers|
    requires Composite(layers, results, w, h, env).1 == Completed
    ensures var r := Composite(layers, results, w, h, env).0;
      results[i].Painted? && 2 * i + 1 < |r| &&
      r[2 * i] == SetComposite(env.blend(layers[i].blendMode)) &&
      r[2 * i + 1] == DrawImage(CanvasImage(w, h, results[i].log), Int(0), Int(0), Int(w), Int(h))
  {
    var n := |layers| - 1;
    var before := Composite(layers[..n], results[..n], w, h, env);
    assert results[n].Painted?;
    var last := CompositeCommands(layers[n], results[n].log, w, h, env);
    assert Composite(layers, results, w, h, env).0 == before.0 + last;
    if i < n {
      CompositeOrder(layers[..n], results[..n], w, h, env, i);
      assert (before.0 + last)[2 * i] == before.0[2 * i];
      assert (before.0 + last)[2 * i + 1] == before.0[2 * i + 1];
    }
  }

  /** Taking one more layer: the loop so far, then that layer's calls. */
  lemma CompositeStep(layers: seq<Layer>, results: seq<LayerResult>, w: nat, h: nat, env: Env, i: nat)
    requires |results| == |layers| && i < |layers|
    requires Composite(layers[..i], results[..i], w, h, env).1 == Completed
    ensures var before := Composite(layers[..i], results[..i], w, h, env).0;
      Composite(layers[..i + 1], results[..i + 1], w, h, env) ==
        match results[i]
        case Thrown => (before, Aborted)
        case Hung => (before, Frozen)
        case Painted(log) =>
          if w > 0 && h > 0 then (before + CompositeCommands(layers[i], log, w, h, env), Completed)
          else (before + [SetComposite(env.blend(layers[i].blendMode))], Aborted)
  {
    var before := Composite(layers[..i], results[..i], w, h, env).0;
    var step := CompositeLayer(layers[i], results[i], w, h, env);
    CompositeNext(layers, results, w, h, env, i);
    if !results[i].Painted? {
      assert before + step.0 == before;
    }
  }

  /** The same step, told by `CompositeLayer`. */
  lemma CompositeNext(layers: seq<Layer>, results: seq<LayerResult>, w: nat, h: nat, env: Env, i: nat)
    requires |results| == |layers| && i < |layers|
    requires Composite(layers[..i], results[..i], w, h, env).1 == Completed
    ensures var step := CompositeLayer(layers[i], results[i], w, h, env);
      Composite(layers[..i + 1], results[..i + 1], w, h, env) ==
        (Composite(layers[..i], results[..i], w, h, env).0 + step.0, step.1)
  {
    assert layers[..i + 1][..i] == layers[..i] && results[..i + 1][..i] == results[..i];
    assert layers[..i + 1][i] == layers[i] && results[..i + 1][i] == results[i];
  }

  /** Once a layer is not painted, later layers change nothing. */
  lemma {:induction false} CompositeStops(layers: seq<Layer>, results: seq<LayerResult>, w: nat, h: nat, env: Env, i: nat)
    requires |results| == |layers| && i <= |layers|
    requires Composite(layers[..i], results[..i], w, h, env).1 != Completed
    ensures Composite(layers, results, w, h, env) == Composite(layers[..i], results[..i], w, h, env)
    decreases |layers|
  {
    if i < |layers| {
      var n := |layers| - 1;
      assert layers[..n][..i] == layers[..i] && results[..n][..i] == results[..i];
      CompositeStops(layers[..n], results[..n], w, h, env, i);
    } else {
      assert layers[..i] == layers && results[..i] == results;
    }
  }

  // ---------------------------------------------------------------------
  // The two defects and their corrections

  /** As written, the first layer with a picture (an image that is not a
      gradient) throws: the background ends in the `catch` with only the
      layers before it composited, and no later layer is drawn. */
  lemma ImageLayerAborts(m: StyleMap, w: nat, h: nat, env: Env, i: nat)
    requires i < LayerCount(m)
    requires HasImage(LayerAt(m, i)) && !IsGradient(LayerAt(m, i).image.value)
    requires var layers := FirstLayers(m, LayerCount(m));
      var results := LayerResultsAsWritten(layers, m, w, h, env);
      Composite(layers[..i], results[..i], w, h, env).1 == Completed
    ensures var layers := FirstLayers(m, LayerCount(m));
      var results := LayerResultsAsWritten(layers, m, w, h, env);
      BackgroundAsWritten(m, w, h, env) == (Composite(layers[..i], results[..i], w, h, env).0, Aborted)
  {
    var layers := FirstLayers(m, LayerCount(m));
    var results := LayerResultsAsWritten(layers, m, w, h, env);
    FirstLayersAt(m, LayerCount(m), i);
    PictureThrows(layers, m, w, h, env, i);
    ThrownStops(layers, results, w, h, env, i);
  }

  lemma PictureThrows(layers: seq<Layer>, m: StyleMap, w: nat, h: nat, env: Env, i: nat)
    requires i < |layers| && HasImage(layers[i]) && !IsGradient(layers[i].image.value)
    ensures LayerResultsAsWritten(layers, m, w, h, env)[i] == Thrown
  {
    assert LayerImageAsWritten(layers[i], w, h, env) == Thrown;
  }

  /** A layer that throws ends the loop with the layers before it. */
  lemma ThrownStops(layers: seq<Layer>, results: seq<LayerResult>, w: nat, h: nat, env: Env, i: nat)
    requires |results| == |layers| && i < |layers| && results[i] == Thrown
    requires Composite(layers[..i], results[..i], w, h, env).1 == Completed
    ensures Composite(layers, results, w, h, env) == (Composite(layers[..i], results[..i], w, h, env).0, Aborted)
  {
    CompositeNext(layers, results, w, h, env, i);
    var before := Composite(layers[..i], results[..i], w, h, env).0;
    assert before + [] == before;
    CompositeStops(layers, results, w, h, env, i + 1);
  }

  /** The style map of a single picture, `background-image: url(a.png)`:
      as written nothing reaches the canvas and the background ends in the
      `catch`; as corrected the picture's layer is composited and the
      background completes. */
  lemma SinglePicture(w: nat, h: nat, env: Env, iw: nat, ih: nat)
    ensures BackgroundAsWritten(PictureMap, w, h, env) == ([], Aborted)
    ensures var r := BackgroundCorrected(PictureMap, _ => Some((iw, ih)), w, h, env);
      (r.1 == Completed <==> w > 0 && h > 0) && (r.1 == Completed ==> |r.0| == 2)
  {
    PictureLayers();
    ImageLayerAborts(PictureMap, w, h, env, 0);
    PictureDrawn(w, h, env, iw, ih);
    var loads: nat -> Option<(nat, nat)> := _ => Some((iw, ih));
    var results := LayerResults([PictureLayer], loads, PictureMap, w, h, env);
    assert results[0] == PaintLayer(PictureLayer, LayerImage(PictureLayer, Some((iw, ih)), w, h, env), PictureMap, w, h, env);
  }

  const PictureMap: StyleMap := map["background-image" := ["url(a.png)"]]

  const PictureLayer := Layer(None, Some("url(a.png)"), ("0%", "0%"), ("auto", "auto"), "repeat", "scroll", "padding-box", "border-box", "normal")

  lemma PictureLayers()
    ensures LayerCount(PictureMap) == 1 && FirstLayers(PictureMap, 1) == [PictureLayer]
    ensures HasImage(PictureLayer) && !IsGradient(PictureLayer.image.value)
  {
    PictureCount();
    PictureLayerAt();
    assert PictureLayer.image.value[0] == 'u';
  }

  lemma PictureCount()
    ensures LayerCount(PictureMap) == 1
  {
    assert List(PictureMap, "background-image") == ["url(a.png)"];
  }

  lemma PictureLayerAt()
    ensures LayerAt(PictureMap, 0) == PictureLayer
  {
    Parse.EmptySize();
    Parse.EmptyPosition();
    OtherKey("background-color");
    OtherKey("background-position");
    OtherKey("background-size");
    OtherKey("background-repeat");
    OtherKey("background-attachment");
    OtherKey("background-origin");
    OtherKey("background-clip");
    OtherKey("background-blend-mode");
  }

  lemma OtherKey(k: string)
    requires |k| > 11 && k[11] != 'i'
    ensures List(PictureMap, k) == []
  {
    assert k != "background-image" by { assert "background-image"[11] == 'i'; }
  }

  lemma PictureDrawn(w: nat, h: nat, env: Env, iw: nat, ih: nat)
    ensures LayerImage(PictureLayer, Some((iw, ih)), w, h, env).Painted?
  {
    PictureUrl();
    PictureSize(w, h, iw, ih);
    BackgroundImage.PatternOutcome(PictureLayer, iw, ih, w, h);
    assert !BackgroundImage.ImageOutcome(PictureLayer, Some((iw, ih)), w, h).Frozen?;
  }

  lemma PictureUrl()
    ensures BackgroundImage.ImageUrl(PictureLayer.image) == Ok("a.png")
  {
    var u := "a.png";
    assert ')' !in u && u[0] == 'a' && u[|u| - 1] == 'g';
    BackgroundImage.UrlUnquoted(u);
    assert "url(" + u + ")" == "url(a.png)";
  }

  lemma PictureSize(w: nat, h: nat, iw: nat, ih: nat)
    ensures BackgroundImage.LayerSize(PictureLayer.size, iw, ih, w, h) == Ok(BackgroundImage.Size(Int(iw), Int(ih)))
  {
  }

  /** As written, a clipped layer sets its clip after everything it paints:
      the last call on the layer canvas is `clip`, so the clip bounds
      nothing.  A colour, for one, fills the whole canvas. */
  lemma ClipAfterPaint(layer: Layer, m: StyleMap, w: nat, h: nat, env: Env)
    requires Clipped(layer) && LayerImageAsWritten(layer, w, h, env).Painted?
    ensures var log := PaintLayerAsWritten(layer, LayerImageAsWritten(layer, w, h, env), m, w, h, env).log;
      |log| >= 4 && log[|log| - 1] == Clip && Clip !in log[..|log| - 1]
    ensures HasColor(layer) ==>
      PaintLayerAsWritten(layer, LayerImageAsWritten(layer, w, h, env), m, w, h, env).log[1] == FillRect(Int(0), Int(0), Int(w), Int(h))
  {
    GradientSetsNoClip(layer, w, h, env);
    ClipLast(layer, LayerImageAsWritten(layer, w, h, env).log, m, w, h, env);
  }

  /** A clipped layer whose image sets no clip, painted as written, ends
      with its only clip. */
  lemma ClipLast(layer: Layer, image: seq<DrawCmd>, m: StyleMap, w: nat, h: nat, env: Env)
    requires Clipped(layer) && Clip !in image
    ensures var log := PaintLayerAsWritten(layer, Painted(image), m, w, h, env).log;
      |log| >= 4 && log[|log| - 1] == Clip && Clip !in log[..|log| - 1]
    ensures HasColor(layer) ==>
      PaintLayerAsWritten(layer, Painted(image), m, w, h, env).log[1] == FillRect(Int(0), Int(0), Int(w), Int(h))
  {
    var colour := ColorCommands(layer, w, h);
    var clip := ClipFor(layer, m, w, h, env);
    assert |clip| == 4 && clip[3] == Clip && Clip !in clip[..3];
    ClipEnds(colour, image, clip);
  }

  /** Three pieces of which only the last holds a clip, as its last call. */
  lemma ClipEnds(colour: seq<DrawCmd>, image: seq<DrawCmd>, clip: seq<DrawCmd>)
    requires Clip !in colour && Clip !in image
    requires |clip| == 4 && clip[3] == Clip && Clip !in clip[..3]
    ensures var log := colour + image + clip;
      |log| >= 4 && log[|log| - 1] == Clip && Clip !in log[..|log| - 1]
  {
    var log := colour + image + clip;
    assert log[..|log| - 1] == colour + image + clip[..3];
  }

  /** The image part of a layer, as written, sets no clip. */
  lemma GradientSetsNoClip(layer: Layer, w: nat, h: nat, env: Env)
    requires LayerImageAsWritten(layer, w, h, env).Painted?
    ensures Clip !in LayerImageAsWritten(layer, w, h, env).log
  {
    if HasImage(layer) {
      var gradient := BackgroundGradient.GradientCommands(layer.image.value, w, h, env.t).value;
      assert forall j :: 0 <= j < |gradient| - 1 ==> gradient[j].SetFillStyle?;
    }
  }

  /** As evidently intended, a clipped layer sets its clip before anything
      it paints: the canvas starts with the clip of the layer's box. */
  lemma ClipBeforePaint(layer: Layer, image: LayerResult, m: StyleMap, w: nat, h: nat, env: Env)
    requires Clipped(layer) && image.Painted?
    ensures var log := PaintLayer(layer, image, m, w, h, env).log;
      |log| >= 4 &&
      log[..4] == BackgroundClip.ClipCommands(BackgroundClip.ElementClipBounds(layer.clip, m, w, h, env.units, env.unitPixel))
  {
    var clip := ClipFor(layer, m, w, h, env);
    assert (clip + ColorCommands(layer, w, h) + image.log)[..4] == clip;
  }

  /** With no layer at all the canvas gets one transparent fill, as written
      and as corrected. */
  lemma NoLayersTransparent(m: StyleMap, loads: nat -> Option<(nat, nat)>, w: nat, h: nat, env: Env)
    requires LayerCount(m) == 0
    ensures BackgroundAsWritten(m, w, h, env) == (TransparentFill(w, h), Completed)
    ensures BackgroundCorrected(m, loads, w, h, env) == (TransparentFill(w, h), Completed)
  {
  }

  /** On an element canvas with a zero side every layer canvas has one too:
      compositing the first painted layer throws, so a background with
      layers never completes, as written or as corrected. */
  lemma ZeroSideNeverCompletes(m: StyleMap, loads: nat -> Option<(nat, nat)>, w: nat, h: nat, env: Env)
    requires LayerCount(m) > 0 && (w == 0 || h == 0)
    ensures BackgroundCorrected(m, loads, w, h, env).1 != Completed
    ensures BackgroundAsWritten(m, w, h, env).1 != Completed
  {
    assert FirstLayers(m, LayerCount(m)) != [];
  }

  // ---------------------------------------------------------------------
  // The methods

  /** The image branch of a layer: `drawBackgroundGradient` or
      `drawBackgroundImage` on the layer canvas. */
  method DrawLayerImage(layerCtx: Context, layer: Layer, loaded: Option<(nat, nat)>, env: Env) returns (result: LayerResult)
    modifies layerCtx
    ensures layerCtx.width == old(layerCtx.width) && layerCtx.height == old(layerCtx.height)
    ensures result == LayerImage(layer, loaded, old(layerCtx.width), old(layerCtx.height), env)
    ensures result.Painted? ==> layerCtx.log == old(layerCtx.log) + result.log
  {
    if !HasImage(layer) {
      return Painted([]);
    }
    var before := layerCtx.log;
    if IsGradient(layer.image.value) {
      var ok := BackgroundGradient.DrawBackgroundGradient(layerCtx, layer.image.value, env.t);
      if !ok {
        return Thrown;
      }
    } else {
      var outcome := BackgroundImage.DrawBackgroundImage(layerCtx, layer, loaded);
      if outcome.Frozen? {
        return Hung;
      }
    }
    result := Painted(layerCtx.log[|before|..]);
  }

  /** One layer canvas, painted as evidently intended. */
  method PaintLayerCanvas(layerCtx: Context, layer: Layer, loaded: Option<(nat, nat)>, m: StyleMap, env: Env)
    returns (result: LayerResult)
    requires layerCtx.log == []
    modifies layerCtx
    ensures layerCtx.width == old(layerCtx.width) && layerCtx.height == old(layerCtx.height)
    ensures result ==
      PaintLayer(layer, LayerImage(layer, loaded, old(layerCtx.width), old(layerCtx.height), env), m, old(layerCtx.width), old(layerCtx.height), env)
    ensures result.Painted? ==> result.log == layerCtx.log
  {
    var w, h := layerCtx.width, layerCtx.height;
    ClipAndColor(layerCtx, layer, m, env);
    ghost var base := layerCtx.log;
    assert base == ClipFor(layer, m, w, h, env) + ColorCommands(layer, w, h);
    var image := DrawLayerImage(layerCtx, layer, loaded, env);
    assert image == LayerImage(layer, loaded, w, h, env);
    assert image.Painted? ==> layerCtx.log == base + image.log;
    result := PaintLayer(layer, image, m, w, h, env);
  }

  /** The clip, for a `padding-box` or `content-box` layer, then the colour. */
  method ClipAndColor(layerCtx: Context, layer: Layer, m: StyleMap, env: Env)
    modifies layerCtx
    ensures layerCtx.width == old(layerCtx.width) && layerCtx.height == old(layerCtx.height)
    ensures layerCtx.log ==
      old(layerCtx.log) + ClipFor(layer, m, layerCtx.width, layerCtx.height, env) + ColorCommands(layer, layerCtx.width, layerCtx.height)
  {
    if Clipped(layer) {
      BackgroundClip.ApplyClipPath(layerCtx, layer.clip, m, env.units, env.unitPixel);
    }
    if HasColor(layer) {
      layerCtx.Do(SetFillStyle(Solid(CssText(layer.color.value))));
      layerCtx.Do(FillRect(Int(0), Int(0), Int(layerCtx.width), Int(layerCtx.height)));
    }
  }

  /** `drawBackground`, with the two corrections: every layer is painted
      (image layers included, once their picture has loaded) and clipped
      before it is composited. */
  method DrawBackground(ctx: Context, m: StyleMap, loads: nat -> Option<(nat, nat)>, env: Env) returns (ending: Ending)
    modifies ctx
    ensures ctx.width == old(ctx.width) && ctx.height == old(ctx.height)
    ensures ending == BackgroundCorrected(m, loads, old(ctx.width), old(ctx.height), env).1
    ensures ctx.log == old(ctx.log) + BackgroundCorrected(m, loads, old(ctx.width), old(ctx.height), env).0
  {
    var w, h := ctx.width, ctx.height;
    var layers := ParseBackgroundLayers(m);
    if |layers| == 0 {
      ctx.Do(SetFillStyle(Solid(CssText("transparent"))));
      ctx.Do(FillRect(Int(0), Int(0), Int(w), Int(h)));
      return Completed;
    }
    ending := DrawLayers(ctx, layers, loads, m, env);
  }

  /** The `forEach` over the layers, each drawn in turn until one throws or
      hangs. */
  method DrawLayers(ctx: Context, layers: seq<Layer>, loads: nat -> Option<(nat, nat)>, m: StyleMap, env: Env)
    returns (ending: Ending)
    modifies ctx
    ensures ctx.width == old(ctx.width) && ctx.height == old(ctx.height)
    ensures var r := Composite(layers, LayerResults(layers, loads, m, old(ctx.width), old(ctx.height), env), old(ctx.width), old(ctx.height), env);
      ending == r.1 && ctx.log == old(ctx.log) + r.0
  {
    var w, h := ctx.width, ctx.height;
    ghost var results := LayerResults(layers, loads, m, w, h, env);
    var i := 0;
    while i < |layers|
      invariant i <= |layers|
      invariant ctx.width == w && ctx.height == h
      invariant Composite(layers[..i], results[..i], w, h, env).1 == Completed
      invariant ctx.log == old(ctx.log) + Composite(layers[..i], results[..i], w, h, env).0
    {
      ghost var before := Composite(layers[..i], results[..i], w, h, env).0;
      var result, step := DrawLayer(ctx, layers[i], loads(i), m, env);
      assert result == results[i];
      CompositeNext(layers, results, w, h, env, i);
      ghost var added := CompositeLayer(layers[i], results[i], w, h, env).0;
      assert ctx.log == old(ctx.log) + (before + added);
      if step != Completed {
        CompositeStops(layers, results, w, h, env, i + 1);
        return step;
      }
      i := i + 1;
    }
    assert layers[..i] == layers && results[..i] == results;
    return Completed;
  }

  /** The body of the `forEach`: a fresh canvas of the same size is painted
      and, unless it threw or hung, composited; `ending` says whether the
      loop goes on (`Completed`) or how it ends. */
  method DrawLayer(ctx: Context, layer: Layer, loaded: Option<(nat, nat)>, m: StyleMap, env: Env)
    returns (result: LayerResult, ending: Ending)
    modifies ctx
    ensures ctx.width == old(ctx.width) && ctx.height == old(ctx.height)
    ensures result ==
      PaintLayer(layer, LayerImage(layer, loaded, old(ctx.width), old(ctx.height), env), m, old(ctx.width), old(ctx.height), env)
    ensures ending == Completed <==> result.Painted? && old(ctx.width) > 0 && old(ctx.height) > 0
    ensures ending == Completed ==>
      ctx.log == old(ctx.log) + CompositeCommands(layer, result.log, old(ctx.width), old(ctx.height), env)
    ensures result.Painted? && ending != Completed ==>
      ending == Aborted && ctx.log == old(ctx.log) + [SetComposite(env.blend(layer.blendMode))]
    ensures !result.Painted? ==> ctx.log == old(ctx.log) && ending == (if result.Thrown? then Aborted else Frozen)
    ensures var step := CompositeLayer(layer, result, old(ctx.width), old(ctx.height), env);
      ending == step.1 && ctx.log == old(ctx.log) + step.0
  {
    var layerCtx := new Context(ctx.width, ctx.height);
    result := PaintLayerCanvas(layerCtx, layer, loaded, m, env);
    if !result.Painted? {
      return result, if result.Thrown? then Aborted else Frozen;
    }
    ctx.Do(SetComposite(env.blend(layer.blendMode)));
    if !Usable(layerCtx.Image()) {
      return result, Aborted;
    }
    ctx.Do(DrawImage(layerCtx.Image(), Int(0), Int(0), Int(ctx.width), Int(ctx.height)));
    ending := Completed;
  }
}
