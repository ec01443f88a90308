/** Plain style objects as the code builds, spreads and returns them: one
    entry per own property, each holding text, a number, one of the parsed
    style values, or `undefined`. The order of the keys is not kept. */
module StyleObjects {
  import opened Js
  import opened Wrappers
  import opened PixelTypes

  datatype StyleValue =
    | Text(s: string)
    | Numeric(n: Num)
    | Length(u: PixelUnit)
    | Color(c: PixelColor)
    | Gradient(g: PixelGradient)
    | Padding(sides: Sides)
    | BorderValue(b: Border)
    | WeightValue(w: FontWeight)
    | Prop(p: PropValue)
    | Undefined

  type StyleObject = map<string, StyleValue>

  /** `{ ...first, ...second }`: every key of either object, a key of
      `second` taking its value from `second`. */
  function Spread(first: StyleObject, second: StyleObject): (r: StyleObject)
    ensures r.Keys == first.Keys + second.Keys
    ensures forall k :: k in second ==> r[k] == second[k]
    ensures forall k :: k in first && k !in second ==> r[k] == first[k]
  {
    first + second
  }

  /** The property names of a parsed style. */
  const PixelStyleKeys: set<string> := {
    "width", "height", "padding", "backgroundColor", "backgroundImage", "border",
    "borderRadius", "color", "fontSize", "fontFamily", "fontWeight", "textAlign"}

  /** The value a parsed style holds under a property name, if it assigned one. */
  function PixelStyleField(s: PixelStyle, key: string): Option<StyleValue> {
    match key
    case "width" => if s.width.Some? then Some(Length(s.width.value)) else None
    case "height" => if s.height.Some? then Some(Length(s.height.value)) else None
    case "padding" => if s.padding.Some? then Some(Padding(s.padding.value)) else None
    case "backgroundColor" => if s.backgroundColor.Some? then Some(Color(s.backgroundColor.value)) else None
    case "backgroundImage" => if s.backgroundImage.Some? then Some(Gradient(s.backgroundImage.value)) else None
    case "border" => if s.border.Some? then Some(BorderValue(s.border.value)) else None
    case "borderRadius" => if s.borderRadius.Some? then Some(Length(s.borderRadius.value)) else None
    case "color" => if s.color.Some? then Some(Color(s.color.value)) else None
    case "fontSize" => if s.fontSize.Some? then Some(Length(s.fontSize.value)) else None
    case "fontFamily" => if s.fontFamily.Some? then Some(Text(s.fontFamily.value)) else None
    case "fontWeight" => if s.fontWeight.Some? then Some(WeightValue(s.fontWeight.value)) else None
    case "textAlign" => if s.textAlign.Some? then Some(Prop(s.textAlign.value)) else None
    case _ => None
  }

  /** A parsed style as an object: exactly the properties `parseCSS` assigned. */
  function PixelStyleObject(s: PixelStyle): (o: StyleObject)
  {
    map k | k in PixelStyleKeys && PixelStyleField(s, k).Some? :: PixelStyleField(s, k).value
  }

  /** The empty style has no properties. */
  lemma EmptyStyleObject()
    ensures PixelStyleObject(EmptyStyle) == map[]
  {
    forall k | k in PixelStyleKeys ensures PixelStyleField(EmptyStyle, k).None? {
    }
  }
}
