/** The value types of the older engine: lengths with a unit, RGBA colours,
    linear gradients and the parsed style record. */
module PixelTypes {
  import opened Js
  import opened Wrappers

  datatype LengthUnit = Px | Percent | Em | Rem | Vw | Vh

  /** The unit as written in CSS. */
  function UnitName(u: LengthUnit): (s: string)
    ensures |s| >= 1
  {
    match u
    case Px => "px"
    case Percent => "%"
    case Em => "em"
    case Rem => "rem"
    case Vw => "vw"
    case Vh => "vh"
  }

  datatype PixelUnit = PixelUnit(value: Num, unit: LengthUnit)

  /** Channels are numbers: a channel parsed from bad text is NaN. */
  datatype PixelColor = PixelColor(r: Num, g: Num, b: Num, a: Num)

  datatype GradientStop = GradientStop(color: PixelColor, position: Num)

  datatype GradientKind = Linear | Radial

  datatype PixelGradient = PixelGradient(kind: GradientKind, angle: Num, stops: seq<GradientStop>)

  datatype Sides = Sides(top: PixelUnit, right: PixelUnit, bottom: PixelUnit, left: PixelUnit)

  /** The border record of a background style; the style text is kept as given. */
  datatype Border = Border(width: PixelUnit, color: PixelColor, style: string)

  datatype FontWeight = Bold | Normal | Weight(n: Num)

  /** A value read from a style object: text or a number. */
  datatype PropValue = Str(s: string) | Number(n: Num)

  predicate PropTruthy(v: PropValue) {
    match v
    case Str(s) => s != ""
    case Number(n) => Truthy(n)
  }

  /** The fields of a parsed style; an absent field is `None`. */
  datatype PixelStyle = PixelStyle(
    width: Option<PixelUnit>,
    height: Option<PixelUnit>,
    padding: Option<Sides>,
    backgroundColor: Option<PixelColor>,
    backgroundImage: Option<PixelGradient>,
    border: Option<Border>,
    borderRadius: Option<PixelUnit>,
    color: Option<PixelColor>,
    fontSize: Option<PixelUnit>,
    fontFamily: Option<string>,
    fontWeight: Option<FontWeight>,
    textAlign: Option<PropValue>)

  const EmptyStyle := PixelStyle(None, None, None, None, None, None, None, None, None, None, None, None)
}
