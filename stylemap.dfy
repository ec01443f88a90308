/** Style maps of the newer renderer: each CSS property name with the list of
    its computed values, as text. */
module StyleMaps {
  import opened Js
  import opened Text
  import opened CssUnit
  import opened NumText

  type StyleMap = map<string, seq<string>>

  /** `styleMap[k] || []`: an absent property gives the empty list. */
  function List(m: StyleMap, k: string): (xs: seq<string>)
  {
    if k in m then m[k] else []
  }

  /** `pixelUnit(styleMap[k] || '0', ref)`.  A present list, even an empty one,
      is truthy, so it is handed over as it is and read as text, which joins its
      elements with commas; an absent property reads as `'0'`. */
  function Length(m: StyleMap, k: string, c: UnitContext): Num {
    PixelUnit(if k in m then Join(m[k], ",") else "0", c)
  }

  /** An absent property and an empty list both resolve to 0; a one-value list
      resolves as its value. */
  lemma LengthOfList(m: StyleMap, k: string, c: UnitContext)
    ensures k !in m ==> Length(m, k, c) == Fin(0.0)
    ensures k in m && m[k] == [] ==> Length(m, k, c) == Fin(0.0)
    ensures k in m && |m[k]| == 1 ==> Length(m, k, c) == PixelUnit(m[k][0], c)
  {
    ZeroLength(c);
  }

  /** A list of two or more values is read as text with a comma in it, which
      the length pattern does not match: it resolves to 0. */
  lemma SeveralValuesReadAsZero(m: StyleMap, k: string, c: UnitContext)
    requires k in m && |m[k]| >= 2
    ensures Length(m, k, c) == Fin(0.0)
  {
    var xs := m[k];
    var s := Join(xs, ",");
    var i := |xs[0]|;
    assert s == xs[0] + "," + Join(xs[1..], ",");
    assert s[i] == ',';
    var n := SpanNumeral(s);
    assert n <= i by {
      assert !IsNumeralChar(s[i]);
      assert forall j :: 0 <= j < n ==> IsNumeralChar(s[..n][j]);
    }
    assert s[n..][i - n] == ',';
    assert !AllUnitChars(s[n..]);
    assert MatchLength(s).None?;
  }
}
