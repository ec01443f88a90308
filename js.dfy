/** JavaScript numbers as the rendering code uses them: a finite value, NaN, or
    one of the two infinities.  Exact real arithmetic stands for IEEE-754
    doubles (rounding and the signed zero are not modelled). */
module Js {

  datatype Num = Fin(v: real) | NaN | PosInf | NegInf

  function Int(i: int): Num { Fin(i as real) }

  /** Math.floor, Math.ceil and Math.round on a finite argument. */
  function Floor(x: real): (r: int)
    ensures r as real <= x < r as real + 1.0
  {
    x.Floor
  }

  function Ceil(x: real): (r: int)
    ensures x <= r as real < x + 1.0
  {
    -((-x).Floor)
  }

  /** Math.round rounds halves up: round(2.5) = 3, round(-2.5) = -2. */
  function Round(x: real): (r: int)
    ensures x - 0.5 < r as real <= x + 0.5
  {
    (x + 0.5).Floor
  }

  function MaxR(a: real, b: real): real { if a >= b then a else b }
  function MinR(a: real, b: real): real { if a <= b then a else b }

  /** Truthiness of a number: NaN and 0 are falsy. */
  predicate Truthy(n: Num) { n != NaN && n != Fin(0.0) }

  /** The `n || d` idiom on numbers. */
  function Or(n: Num, d: Num): (r: Num)
  {
    if Truthy(n) then n else d
  }

  function Neg(a: Num): Num {
    match a
    case Fin(x) => Fin(-x)
    case NaN => NaN
    case PosInf => NegInf
    case NegInf => PosInf
  }

  function Add(a: Num, b: Num): Num {
    match (a, b)
    case (Fin(x), Fin(y)) => Fin(x + y)
    case (NaN, _) => NaN
    case (_, NaN) => NaN
    case (PosInf, NegInf) => NaN
    case (NegInf, PosInf) => NaN
    case (PosInf, _) => PosInf
    case (NegInf, _) => NegInf
    case (_, PosInf) => PosInf
    case (_, NegInf) => NegInf
  }

  function Sub(a: Num, b: Num): Num { Add(a, Neg(b)) }

  /** The sign of a non-NaN value: -1, 0 or 1. */
  function Sign(a: Num): int
    requires a != NaN
  {
    match a
    case Fin(x) => if x > 0.0 then 1 else if x < 0.0 then -1 else 0
    case PosInf => 1
    case NegInf => -1
  }

  function InfOfSign(s: int): Num
    requires s != 0
  {
    if s > 0 then PosInf else NegInf
  }

  function Mul(a: Num, b: Num): Num {
    match (a, b)
    case (Fin(x), Fin(y)) => Fin(x * y)
    case (NaN, _) => NaN
    case (_, NaN) => NaN
    case _ => if Sign(a) * Sign(b) == 0 then NaN else InfOfSign(Sign(a) * Sign(b))
  }

  /** Division; a zero divisor gives an infinity, or NaN for 0/0. */
  function Div(a: Num, b: Num): Num {
    match (a, b)
    case (NaN, _) => NaN
    case (_, NaN) => NaN
    case (Fin(x), Fin(y)) =>
      if y != 0.0 then Fin(x / y)
      else if x == 0.0 then NaN
      else InfOfSign(Sign(a))
    case (Fin(_), _) => Fin(0.0)
    case (_, Fin(y)) => if y == 0.0 then a else InfOfSign(Sign(a) * Sign(b))
    case _ => NaN
  }

  function MathRound(a: Num): Num {
    match a
    case Fin(x) => Int(Round(x))
    case _ => a
  }

  function MathFloor(a: Num): Num {
    match a
    case Fin(x) => Int(Floor(x))
    case _ => a
  }

  function MathCeil(a: Num): Num {
    match a
    case Fin(x) => Int(Ceil(x))
    case _ => a
  }

  /** The ordering `a < b`; every comparison with NaN is false. */
  predicate Less(a: Num, b: Num) {
    match (a, b)
    case (Fin(x), Fin(y)) => x < y
    case (NegInf, Fin(_)) => true
    case (NegInf, PosInf) => true
    case (Fin(_), PosInf) => true
    case _ => false
  }

  predicate LessEq(a: Num, b: Num) {
    Less(a, b) || (a == b && a != NaN)
  }

  /** Math.max and Math.min of two numbers: NaN if either is NaN. */
  function MathMax(a: Num, b: Num): (r: Num)
    ensures a != NaN && b != NaN ==> LessEq(a, r) && LessEq(b, r) && (r == a || r == b)
    ensures a == NaN || b == NaN ==> r == NaN
  {
    if a == NaN || b == NaN then NaN else if Less(a, b) then b else a
  }

  function MathMin(a: Num, b: Num): (r: Num)
    ensures a != NaN && b != NaN ==> LessEq(r, a) && LessEq(r, b) && (r == a || r == b)
    ensures a == NaN || b == NaN ==> r == NaN
  {
    if a == NaN || b == NaN then NaN else if Less(b, a) then b else a
  }

  /** Math.PI, Math.cos, Math.sin and Math.sqrt, which exact reals cannot
      compute, are parameters of the model. */
  datatype Trig = Trig(pi: real, cos: real -> real, sin: real -> real, sqrt: real -> real)

  function MathCos(t: Trig, a: Num): Num {
    match a
    case Fin(x) => Fin(t.cos(x))
    case _ => NaN
  }

  function MathSin(t: Trig, a: Num): Num {
    match a
    case Fin(x) => Fin(t.sin(x))
    case _ => NaN
  }

  /** Degrees to radians: `deg * Math.PI / 180`. */
  function Radians(t: Trig, deg: Num): Num {
    Div(Mul(deg, Fin(t.pi)), Fin(180.0))
  }

  /** The quotient of two integers with a positive divisor is finite. */
  lemma IntQuotient(a: int, b: int)
    requires b > 0
    ensures Div(Int(a), Int(b)) == Fin(a as real / b as real)
  {
  }

  /** Zero and the divisor itself over a non-zero divisor. */
  lemma SelfQuotient(d: real)
    requires d != 0.0
    ensures 0.0 / d == 0.0 && d / d == 1.0
  {
  }
}
