/** `pixelUnit`: a CSS length text resolved to pixels against an element.  The
    element's and document's measurements are parameters. */
module CssUnit {
  import opened Js
  import opened Text
  import opened NumText
  import opened Wrappers

  /** What pixelUnit reads from the page: the computed font size of the root
      element and of the element's parent, the element's clientWidth, and the
      viewport size (window.innerWidth / innerHeight). */
  datatype UnitContext = UnitContext(
    rootFontSize: real, parentFontSize: real, clientWidth: real,
    innerWidth: real, innerHeight: real)

  predicate NonNegative(c: UnitContext) {
    c.rootFontSize >= 0.0 && c.parentFontSize >= 0.0 && c.clientWidth >= 0.0
    && c.innerWidth >= 0.0 && c.innerHeight >= 0.0
  }

  predicate IsNumeralChar(c: char) { IsDigit(c) || c == '.' }

  predicate IsUnitChar(c: char) { IsLowerAlpha(c) || c == '%' }

  predicate AllNumeralChars(s: string) { forall i :: 0 <= i < |s| ==> IsNumeralChar(s[i]) }

  predicate AllUnitChars(s: string) { forall i :: 0 <= i < |s| ==> IsUnitChar(s[i]) }

  function SpanNumeral(s: string): (n: nat)
    ensures n <= |s| && AllNumeralChars(s[..(n)])
    ensures n < |s| ==> !IsNumeralChar(s[n])
  {
    if s == [] || !IsNumeralChar(s[0]) then 0
    else
      var n := 1 + SpanNumeral(s[1..]);
      assert s[..n] == [s[0]] + s[1..][..n - 1];
      n
  }

  /** The two groups of `/^([\d.]+)([a-z%]*)$/`. */
  datatype LengthMatch = LengthMatch(numeral: string, unit: string)

  /** The match of `/^([\d.]+)([a-z%]*)$/`.  The two character classes are
      disjoint, so the numeral is the longest prefix of digits and dots. */
  function MatchLength(value: string): (m: Option<LengthMatch>)
    ensures m.Some? ==> value == m.value.numeral + m.value.unit
    ensures m.Some? ==> |m.value.numeral| > 0 && AllNumeralChars(m.value.numeral)
    ensures m.Some? ==> AllUnitChars(m.value.unit)
  {
    var k := SpanNumeral(value);
    if k == 0 || !AllUnitChars(value[k..]) then None
    else Some(LengthMatch(value[..k], value[k..]))
  }

  /** The switch on the unit: px, no unit and any unknown unit keep the number. */
  function Resolve(num: Num, unit: string, c: UnitContext): Num {
    if unit == "rem" then Mul(num, Fin(c.rootFontSize))
    else if unit == "em" then Mul(num, Fin(c.parentFontSize))
    else if unit == "%" then Mul(Div(num, Fin(100.0)), Fin(c.clientWidth))
    else if unit == "vw" then Mul(Div(num, Fin(100.0)), Fin(c.innerWidth))
    else if unit == "vh" then Mul(Div(num, Fin(100.0)), Fin(c.innerHeight))
    else num
  }

  predicate KnownUnit(u: string) { u in {"rem", "em", "%", "vw", "vh"} }

  /** `pixelUnit(value, element)`. */
  function PixelUnit(value: string, c: UnitContext): (r: Num)
    ensures value == "" ==> r == Fin(0.0)
    ensures MatchLength(value).None? ==> r == Fin(0.0)
  {
    if value == "" then Fin(0.0)
    else match MatchLength(value)
      case None => Fin(0.0)
      case Some(m) => Resolve(ParseFloat(m.numeral), m.unit, c)
  }

  /** A numeral of digits and dots is read by parseFloat as a non-negative
      number, or NaN exactly when it starts with a dot not followed by a digit. */
  lemma {:induction false} NumeralValue(s: string)
    requires |s| > 0 && AllNumeralChars(s)
    ensures ParseFloat(s) == NaN <==> s[0] == '.' && (|s| == 1 || s[1] == '.')
    ensures ParseFloat(s) != NaN ==> ParseFloat(s).Fin? && ParseFloat(s).v >= 0.0
  {
    assert SpanSpace(s) == 0;
    assert TrimStart(s) == s;
    assert SignPrefix(s) == (false, s);
    assert !StartsWith(s, "Infinity") by { assert s[0] != 'I'; }
    var ip := SpanDigits(s);
    var dot := ip < |s| && s[ip] == '.';
    var fp := if dot then SpanDigits(s[ip + 1..]) else 0;
    if ip > 0 || fp > 0 {
      var mantLen := if dot then ip + 1 + fp else ip;
      if mantLen < |s| {
        assert s[mantLen..][0] == s[mantLen];
        assert IsNumeralChar(s[mantLen]);
      }
      assert ExponentPrefix(s[mantLen..]) == (0, 0);
      if dot { FracNonNegative(s[ip + 1..][..fp]); }
    }
  }

  lemma {:induction false} FracNonNegative(d: string)
    requires AllDigits(d)
    ensures FracValue(d) >= 0.0
  {
    if d != [] { FracNonNegative(d[1..]); }
  }

  lemma ResolveNonNegative(n: Num, unit: string, c: UnitContext)
    requires NonNegative(c)
    requires n == NaN || (n.Fin? && n.v >= 0.0)
    ensures Resolve(n, unit, c) == NaN || (Resolve(n, unit, c).Fin? && Resolve(n, unit, c).v >= 0.0)
  {
  }

  /** Only unsigned numerals match, so the resolved length is never negative
      when the page's measurements are not. */
  lemma PixelUnitNonNegative(value: string, c: UnitContext)
    requires NonNegative(c)
    ensures PixelUnit(value, c) == NaN || (PixelUnit(value, c).Fin? && PixelUnit(value, c).v >= 0.0)
  {
    if value != "" && MatchLength(value).Some? {
      var m := MatchLength(value).value;
      NumeralValue(m.numeral);
      ResolveNonNegative(ParseFloat(m.numeral), m.unit, c);
    }
  }

  /** The numeral's value is NaN, and so is the length, only for a numeral such as `.` or `..5`. */
  lemma PixelUnitNaN(value: string, c: UnitContext)
    ensures PixelUnit(value, c) == NaN <==>
      MatchLength(value).Some? && var s := MatchLength(value).value.numeral;
      s[0] == '.' && (|s| == 1 || s[1] == '.')
  {
    if value != "" && MatchLength(value).Some? {
      var m := MatchLength(value).value;
      NumeralValue(m.numeral);
      assert PixelUnit(value, c) == Resolve(ParseFloat(m.numeral), m.unit, c);
      if ParseFloat(m.numeral) != NaN {
        ResolveNotNaN(ParseFloat(m.numeral), m.unit, c);
      }
    }
  }

  lemma ResolveNotNaN(n: Num, unit: string, c: UnitContext)
    requires n.Fin?
    ensures Resolve(n, unit, c).Fin?
  {
  }

  /** A sign, an upper-case unit or a space before the unit make the text fail to match. */
  lemma RejectedLengths(c: UnitContext)
    ensures PixelUnit("-4px", c) == Fin(0.0)
    ensures PixelUnit("4PX", c) == Fin(0.0)
    ensures PixelUnit("4 px", c) == Fin(0.0)
  {
    assert SpanNumeral("-4px") == 0;
    assert SpanNumeral("4PX") == 1 by { assert !IsNumeralChar("4PX"[1]); }
    assert !AllUnitChars("4PX"[1..]) by { assert "4PX"[1] == 'P'; }
    assert SpanNumeral("4 px") == 1 by { assert !IsNumeralChar("4 px"[1]); }
    assert !AllUnitChars("4 px"[1..]) by { assert "4 px"[1] == ' '; }
  }

  lemma {:induction false} SpanNumeralConcat(d: string, u: string)
    requires AllNumeralChars(d)
    requires u == [] || !IsNumeralChar(u[0])
    ensures SpanNumeral(d + u) == |d|
  {
    if d != [] {
      assert (d + u)[1..] == d[1..] + u;
      SpanNumeralConcat(d[1..], u);
    } else {
      assert d + u == u;
    }
  }

  /** A whole number `d` followed by a unit text is resolved by the unit switch. */
  lemma NumberThenUnit(d: string, u: string, c: UnitContext)
    requires |d| > 0 && AllDigits(d) && AllUnitChars(u)
    ensures PixelUnit(d + u, c) == Resolve(Fin(RadixValue(d, 10) as real), u, c)
  {
    var v := d + u;
    if u != [] { assert IsUnitChar(u[0]); }
    SpanNumeralConcat(d, u);
    assert v[..|d|] == d && v[|d|..] == u;
    assert MatchLength(v) == Some(LengthMatch(d, u));
    DigitsValue(d);
  }

  /** The default text `0` resolves to 0 pixels. */
  lemma ZeroLength(c: UnitContext)
    ensures PixelUnit("0", c) == Fin(0.0)
  {
    NumberThenUnit("0", "", c);
    assert "0" + "" == "0";
    assert RadixValue("0", 10) == 0 by { assert "0"[..0] == ""; }
  }

  /** The unit switch: px, no unit and any unknown unit keep the number; rem and
      em scale by the root and parent font sizes; %, vw and vh take a hundredth
      of the element width, viewport width and viewport height. */
  lemma ResolveRules(n: real, u: string, c: UnitContext)
    ensures !KnownUnit(u) ==> Resolve(Fin(n), u, c) == Fin(n)
    ensures u == "rem" ==> Resolve(Fin(n), u, c) == Fin(n * c.rootFontSize)
    ensures u == "em" ==> Resolve(Fin(n), u, c) == Fin(n * c.parentFontSize)
    ensures u == "%" ==> Resolve(Fin(n), u, c) == Fin(n / 100.0 * c.clientWidth)
    ensures u == "vw" ==> Resolve(Fin(n), u, c) == Fin(n / 100.0 * c.innerWidth)
    ensures u == "vh" ==> Resolve(Fin(n), u, c) == Fin(n / 100.0 * c.innerHeight)
  {
  }
}
