/** The layers of a `background`: the style map's comma-separated lists of
    background properties, read side by side, with shorter lists repeated. */
module BackgroundLayers {
  import opened Wrappers
  import opened StyleMaps
  import Parse

  /** One background layer. */
  datatype Layer = Layer(
    color: Option<string>,
    image: Option<string>,
    position: (string, string),
    size: (string, string),
    repeat: string,
    attachment: string,
    origin: string,
    clip: string,
    blendMode: string)

  /** `xs[i % xs.length]`: element `i` of the list repeated cyclically, and
      `undefined` for an empty list (the index is then NaN). */
  function Cycle(xs: seq<string>, i: nat): (r: Option<string>)
    ensures r.None? <==> xs == []
    ensures xs != [] && i < |xs| ==> r == Some(xs[i])
    ensures xs != [] ==> r == Some(xs[i % |xs|])
  {
    if xs == [] then None else Some(xs[i % |xs|])
  }

  /** The properties whose lists decide how many layers there are; the colour
      is not among them. */
  const LayerProperties := [
    "background-image", "background-position", "background-size", "background-repeat",
    "background-attachment", "background-origin", "background-clip", "background-blend-mode"]

  /** The length of the longest list among the layer properties. */
  function LayerCount(m: StyleMap): (n: nat)
    ensures forall k :: k in LayerProperties ==> |List(m, k)| <= n
    ensures exists k :: k in LayerProperties && |List(m, k)| == n
  {
    MaxLength(m, LayerProperties)
  }

  function MaxLength(m: StyleMap, ks: seq<string>): (n: nat)
    requires ks != []
    ensures forall k :: k in ks ==> |List(m, k)| <= n
    ensures exists k :: k in ks && |List(m, k)| == n
  {
    if |ks| == 1 then |List(m, ks[0])|
    else
      var rest := MaxLength(m, ks[1..]);
      assert forall k :: k in ks[1..] ==> k in ks;
      if |List(m, ks[0])| >= rest then |List(m, ks[0])| else rest
  }

  /** Layer `i`: each property takes element `i` of its list, cyclically;
      an absent or empty value falls back to `repeat`, `scroll`,
      `padding-box`, `border-box` and `normal`; only the first layer has a
      colour, the first of the `background-color` list. */
  function LayerAt(m: StyleMap, i: nat): Layer {
    Layer(
      if i == 0 then Parse.Nth(List(m, "background-color"), 0) else None,
      Cycle(List(m, "background-image"), i),
      Parse.ParsePosition(Cycle(List(m, "background-position"), i)),
      Parse.ParseSize(Cycle(List(m, "background-size"), i)),
      Parse.OrDefault(Cycle(List(m, "background-repeat"), i), "repeat"),
      Parse.OrDefault(Cycle(List(m, "background-attachment"), i), "scroll"),
      Parse.OrDefault(Cycle(List(m, "background-origin"), i), "padding-box"),
      Parse.OrDefault(Cycle(List(m, "background-clip"), i), "border-box"),
      Parse.OrDefault(Cycle(List(m, "background-blend-mode"), i), "normal"))
  }

  /** The first `n` layers, in order. */
  function FirstLayers(m: StyleMap, n: nat): (ls: seq<Layer>)
    ensures |ls| == n
  {
    if n == 0 then [] else FirstLayers(m, n - 1) + [LayerAt(m, n - 1)]
  }

  /** Layer `i` of the first `n` is `LayerAt(m, i)`. */
  lemma {:induction false} FirstLayersAt(m: StyleMap, n: nat, i: nat)
    requires i < n
    ensures FirstLayers(m, n)[i] == LayerAt(m, i)
  {
    LayersPrefix(m, n, i + 1);
    assert FirstLayers(m, n)[i] == FirstLayers(m, i + 1)[i];
  }

  /** The first `k` of the first `n` layers are the first `k` layers. */
  lemma {:induction false} LayersPrefix(m: StyleMap, n: nat, k: nat)
    requires k <= n
    ensures FirstLayers(m, n)[..k] == FirstLayers(m, k)
    decreases n
  {
    if k < n {
      LayersPrefix(m, n - 1, k);
      PrefixOfAppend(FirstLayers(m, n - 1), LayerAt(m, n - 1), k);
    } else {
      assert FirstLayers(m, n)[..k] == FirstLayers(m, n);
    }
  }

  lemma PrefixOfAppend<T>(xs: seq<T>, x: T, k: nat)
    requires k <= |xs|
    ensures (xs + [x])[..k] == xs[..k]
  {
  }

  /** `parseBackgroundLayers`: one layer per index below the longest list. */
  method ParseBackgroundLayers(m: StyleMap) returns (layers: seq<Layer>)
    ensures layers == FirstLayers(m, LayerCount(m))
  {
    layers := [];
    var maxLength := LayerCount(m);
    var i := 0;
    while i < maxLength
      invariant i <= maxLength && layers == FirstLayers(m, i)
    {
      layers := layers + [LayerAt(m, i)];
      i := i + 1;
    }
  }

  /** Only the first layer carries a colour, and it is the first colour of
      the list. */
  lemma OnlyFirstLayerColored(m: StyleMap, i: nat)
    ensures i > 0 ==> LayerAt(m, i).color.None?
    ensures LayerAt(m, 0).color.Some? <==> List(m, "background-color") != []
    ensures LayerAt(m, 0).color.Some? ==> LayerAt(m, 0).color.value == m["background-color"][0]
  {
  }

  /** With no list for a property every layer takes its default. */
  lemma MissingPropertiesDefault(m: StyleMap, i: nat)
    requires "background-image" !in m && "background-position" !in m && "background-size" !in m
    requires "background-repeat" !in m && "background-clip" !in m && "background-blend-mode" !in m
    ensures var l := LayerAt(m, i);
      l.image.None? && l.position == ("0%", "0%") && l.size == ("auto", "auto") &&
      l.repeat == "repeat" && l.clip == "border-box" && l.blendMode == "normal" &&
      ("background-attachment" !in m ==> l.attachment == "scroll") &&
      ("background-origin" !in m ==> l.origin == "padding-box")
  {
    Parse.EmptyPosition();
    Parse.EmptySize();
  }
}
