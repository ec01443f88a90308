/** `linear-gradient()` and `radial-gradient()` background images of the newer
    renderer: the argument list is split at top-level commas, the first
    argument may give an angle, a direction, or a shape, size and centre, and
    the rest are colour stops with optional percentages.  The gradient becomes
    the fill style of the layer canvas, which is then filled. */
module BackgroundGradient {
  import opened Js
  import opened Text
  import opened NumText
  import opened Wrappers
  import opened Patterns
  import opened Canvas2D
  import Parse

  /** Whether a `)` comes before any `(` in `t`, which is what the lookahead
      `(?![^(]*\))` rules out after a separating comma. */
  predicate ClosesBeforeOpen(t: string)
    decreases |t|
  {
    t != [] && t[0] != '(' && (t[0] == ')' || ClosesBeforeOpen(t[1..]))
  }

  /** `args.split(/,(?![^(]*\))/)`: a comma separates arguments unless a `)`
      follows it before any `(`, that is, unless it is inside a call. */
  function SplitArgs(s: string): (r: seq<string>)
    ensures |r| >= 1
    decreases |s|
  {
    if s == [] then [""]
    else if s[0] == ',' && !ClosesBeforeOpen(s[1..]) then [""] + SplitArgs(s[1..])
    else
      var t := SplitArgs(s[1..]);
      [[s[0]] + t[0]] + t[1..]
  }

  lemma JoinFirst(c: char, t: seq<string>, sep: string)
    requires |t| >= 1
    ensures Join([[c] + t[0]] + t[1..], sep) == [c] + Join(t, sep)
  {
    var u := [[c] + t[0]] + t[1..];
    if |t| > 1 {
      assert u[1..] == t[1..];
    }
  }

  /** The arguments joined back with commas give the text again. */
  lemma {:induction false} SplitArgsJoin(s: string)
    ensures Join(SplitArgs(s), ",") == s
    decreases |s|
  {
    if s != [] {
      SplitArgsJoin(s[1..]);
      if s[0] == ',' && !ClosesBeforeOpen(s[1..]) {
        var t := SplitArgs(s[1..]);
        assert ([""] + t)[1..] == t;
      } else {
        JoinFirst(s[0], SplitArgs(s[1..]), ",");
      }
      assert s == [s[0]] + s[1..];
    }
  }

  lemma {:induction false} NoCloseNoLookahead(t: string)
    requires ')' !in t
    ensures !ClosesBeforeOpen(t)
    decreases |t|
  {
    if t != [] { NoCloseNoLookahead(t[1..]); }
  }

  /** Without parentheses every comma separates. */
  lemma {:induction false} SplitArgsPlain(s: string)
    requires '(' !in s && ')' !in s
    ensures SplitArgs(s) == Split(s, ',')
    decreases |s|
  {
    if s != [] {
      SplitArgsPlain(s[1..]);
      NoCloseNoLookahead(s[1..]);
    }
  }

  lemma {:induction false} ClosesAfter(u: string, v: string)
    requires '(' !in u
    ensures ClosesBeforeOpen(u + ")" + v)
    decreases |u|
  {
    if u == [] {
      assert (u + ")" + v)[0] == ')';
    } else {
      assert (u + ")" + v)[1..] == u[1..] + ")" + v;
      ClosesAfter(u[1..], v);
    }
  }

  /** A prefix whose every comma is followed by a `)` before any `(` is kept
      in one piece with what follows it up to the next separator. */
  lemma {:induction false} KeptTogether(x: string, rest: string)
    requires forall i :: 0 <= i < |x| && x[i] == ',' ==> ClosesBeforeOpen(x[i + 1..] + rest)
    ensures SplitArgs(x + rest) == [x + SplitArgs(rest)[0]] + SplitArgs(rest)[1..]
    decreases |x|
  {
    if x == [] {
      assert x + rest == rest;
      var r := SplitArgs(rest);
      assert x + r[0] == r[0];
      assert r == [r[0]] + r[1..];
    } else {
      var s := x + rest;
      assert s[1..] == x[1..] + rest;
      forall i | 0 <= i < |x[1..]| && x[1..][i] == ','
        ensures ClosesBeforeOpen(x[1..][i + 1..] + rest)
      {
        assert x[i + 1] == ',';
        assert x[1..][i + 1..] == x[i + 2..];
      }
      KeptTogether(x[1..], rest);
      if x[0] == ',' {
        assert x[1..] == x[0 + 1..];
      }
      assert [x[0]] + (x[1..] + SplitArgs(rest)[0]) == x + SplitArgs(rest)[0];
    }
  }

  /** A call with commas inside it, such as `rgb(0, 0, 0)`, stays one argument;
      the commas after it separate as usual. */
  lemma CallKeptWhole(f: string, a: string, b: string)
    requires ',' !in f && '(' !in f && ')' !in f
    requires '(' !in a && ')' !in a
    requires '(' !in b && ')' !in b
    ensures SplitArgs(f + "(" + a + ")" + "," + b) == [f + "(" + a + ")"] + Split(b, ',')
  {
    var x := f + "(" + a + ")";
    var rest := "," + b;
    forall j | 0 <= j < |f| ensures x[j] != ',' { assert x[j] == f[j]; }
    assert x[|f|] == '(' && x[|f| + 1 + |a|] == ')';
    forall i | 0 <= i < |x| && x[i] == ','
      ensures ClosesBeforeOpen(x[i + 1..] + rest)
    {
      assert |f| + 1 <= i < |f| + 1 + |a|;
      var k := i - |f| - 1;
      assert x[i + 1..] == a[k + 1..] + ")";
      NotInSuffix(a, k + 1, '(');
      ClosesAfter(a[k + 1..], rest);
      assert x[i + 1..] + rest == a[k + 1..] + ")" + rest;
    }
    KeptTogether(x, rest);
    NoCloseNoLookahead(b);
    assert rest[1..] == b;
    SplitArgsPlain(b);
    var r := SplitArgs(rest);
    assert r == [""] + SplitArgs(b);
    assert r[0] == "" && r[1..] == Split(b, ',');
    assert x + r[0] == x;
    assert x + rest == f + "(" + a + ")" + "," + b;
  }

  lemma NotInSuffix(a: string, k: nat, c: char)
    requires k <= |a| && c !in a
    ensures c !in a[k..]
  {
  }

  /** The `directionMap` lookup of `getAngleFromDirection`. */
  function DirectionAngle(d: string): Option<int> {
    if d == "to top" then Some(0)
    else if d == "to right" then Some(90)
    else if d == "to bottom" then Some(180)
    else if d == "to left" then Some(270)
    else if d == "to top right" then Some(45)
    else if d == "to bottom right" then Some(135)
    else if d == "to bottom left" then Some(225)
    else if d == "to top left" then Some(315)
    else None
  }

  /** `getAngleFromDirection`: `directionMap[direction.trim()] || 180`, so both
      an unknown direction and the 0 of `to top` give 180. */
  function AngleFromDirection(direction: string): (a: Num)
    ensures a in {Int(45), Int(90), Int(135), Int(180), Int(225), Int(270), Int(315)}
  {
    match DirectionAngle(Trim(direction))
    case Some(v) => Or(Int(v), Int(180))
    case None => Int(180)
  }

  /** A keyword with no space at its ends is looked up as it is. */
  lemma KeywordAngle(d: string, v: int)
    requires d != [] && d[0] == 't' && !IsSpace(d[|d| - 1])
    requires DirectionAngle(d) == Some(v)
    ensures AngleFromDirection(d) == Or(Int(v), Int(180))
  {
    TrimUnchanged(d);
  }

  /** The eight direction keywords; `to top` reads as `to bottom`. */
  lemma DirectionKeywords()
    ensures AngleFromDirection("to top") == Int(180)
    ensures AngleFromDirection("to right") == Int(90)
    ensures AngleFromDirection("to bottom") == Int(180)
    ensures AngleFromDirection("to left") == Int(270)
    ensures AngleFromDirection("to top right") == Int(45)
    ensures AngleFromDirection("to bottom right") == Int(135)
    ensures AngleFromDirection("to bottom left") == Int(225)
    ensures AngleFromDirection("to top left") == Int(315)
  {
    TopKeyword();
    RightKeyword();
    BottomKeyword();
    LeftKeyword();
    TopRightKeyword();
    BottomRightKeyword();
    BottomLeftKeyword();
    TopLeftKeyword();
  }

  lemma TopKeyword() ensures AngleFromDirection("to top") == Int(180) { KeywordAngle("to top", 0); }
  lemma RightKeyword() ensures AngleFromDirection("to right") == Int(90) { KeywordAngle("to right", 90); }
  lemma BottomKeyword() ensures AngleFromDirection("to bottom") == Int(180) { KeywordAngle("to bottom", 180); }
  lemma LeftKeyword() ensures AngleFromDirection("to left") == Int(270) { KeywordAngle("to left", 270); }
  lemma TopRightKeyword() ensures AngleFromDirection("to top right") == Int(45) { KeywordAngle("to top right", 45); }
  lemma BottomRightKeyword() ensures AngleFromDirection("to bottom right") == Int(135) { KeywordAngle("to bottom right", 135); }
  lemma BottomLeftKeyword() ensures AngleFromDirection("to bottom left") == Int(225) { KeywordAngle("to bottom left", 225); }
  lemma TopLeftKeyword() ensures AngleFromDirection("to top left") == Int(315) { KeywordAngle("to top left", 315); }

  /** Text that is not a direction keyword, even after trimming, gives 180. */
  lemma UnknownDirection(d: string)
    requires DirectionAngle(Trim(d)).None?
    ensures AngleFromDirection(d) == Int(180)
  {
  }

  /** Whether `u` starts with the `\d+%` the stop separator looks ahead for. */
  predicate PercentAhead(u: string) {
    var k := SpanDigits(u);
    0 < k < |u| && u[k] == '%'
  }

  /** The first match of `/\s+(?=\d+%)/` at `p` or later, as the start and end
      of its run of spaces: a maximal run of spaces followed by digits and `%`. */
  function StopSeparator(t: string, p: nat): (r: Option<(nat, nat)>)
    requires p <= |t|
    ensures r.Some? ==> p <= r.value.0 < r.value.1 <= |t|
    ensures r.Some? ==> PercentAhead(t[r.value.1..]) && AllSpace(t[r.value.0..(r.value.1)])
    decreases |t| - p
  {
    if p == |t| then None
    else if IsSpace(t[p]) then
      var j := p + SpanSpace(t[p..]);
      assert t[p..][..j - p] == t[p..j];
      if PercentAhead(t[j..]) then Some((p, j)) else StopSeparator(t, j)
    else StopSeparator(t, p + 1)
  }

  /** A colour argument split into its colour text and its stop, if any. */
  datatype StopText = StopText(color: string, stop: Option<Num>)

  /** `const [colorValue, stop] = color.trim().split(/\s+(?=\d+%)/)`, then
      `colorValue.trim()` and `parseInt(stop) / 100` when there is a second piece. */
  function ParseStop(param: string): (s: StopText)
  {
    var t := Trim(param);
    match StopSeparator(t, 0)
    case None => StopText(Trim(t), None)
    case Some((i, j)) =>
      var k := match StopSeparator(t, j) case None => |t| case Some((i2, _)) => i2;
      StopText(Trim(t[..i]), Some(Div(ParseInt(t[j..k]), Int(100))))
  }

  /** The colour stops in argument order: an explicit stop where one is given,
      else `index / (n - 1)`. */
  function Stops(params: seq<string>): (stops: seq<ColorStop>)
  {
    seq(|params|, i requires 0 <= i < |params| =>
      var s := ParseStop(params[i]);
      ColorStop(s.stop.GetOr(Div(Int(i), Int(|params| - 1))), CssText(s.color)))
  }

  /** With no explicit stop and at least two colours the offsets run evenly
      from 0 to 1 and strictly increase. */
  lemma EvenStops(params: seq<string>)
    requires |params| >= 2
    requires forall i :: 0 <= i < |params| ==> ParseStop(params[i]).stop.None?
    ensures forall i :: 0 <= i < |params| ==>
      Stops(params)[i].offset == Fin(i as real / (|params| - 1) as real)
    ensures Stops(params)[0].offset == Fin(0.0)
    ensures Stops(params)[|params| - 1].offset == Fin(1.0)
    ensures forall i :: 0 <= i < |params| - 1 ==>
      Stops(params)[i].offset.v < Stops(params)[i + 1].offset.v
  {
    var n := (|params| - 1) as real;
    forall i | 0 <= i < |params|
      ensures Stops(params)[i].offset == Fin(i as real / n)
    {
      EvenOffset(params, i);
    }
    SelfQuotient(n);
    EvenOffset(params, 0);
    EvenOffset(params, |params| - 1);
    forall i | 0 <= i < |params| - 1
      ensures Stops(params)[i].offset.v < Stops(params)[i + 1].offset.v
    {
      EvenOffset(params, i);
      EvenOffset(params, i + 1);
      DivLess(i as real, (i + 1) as real, n);
    }
  }

  lemma EvenOffset(params: seq<string>, i: nat)
    requires |params| >= 2 && i < |params|
    requires ParseStop(params[i]).stop.None?
    ensures Stops(params)[i].offset == Fin(i as real / (|params| - 1) as real)
  {
    var d := Div(Int(i), Int(|params| - 1));
    var stop := ParseStop(params[i]).stop;
    assert Stops(params)[i].offset == stop.GetOr(d);
    IntQuotient(i, |params| - 1);
  }

  lemma DivLess(a: real, b: real, n: real)
    requires a < b && n > 0.0
    ensures a / n < b / n
  {
  }

  lemma {:induction false} SkipWord(t: string, p: nat, q: nat)
    requires p <= q <= |t|
    requires forall i :: p <= i < q ==> !IsSpace(t[i])
    ensures StopSeparator(t, p) == StopSeparator(t, q)
    decreases q - p
  {
    if p < q { SkipWord(t, p + 1, q); }
  }

  /** A colour word, one space and `N%` give the word and the stop N/100. */
  lemma ExplicitStop(c: string, d: string)
    requires c != [] && NoSpace(c) && |d| > 0 && AllDigits(d)
    ensures ParseStop(c + " " + d + "%") == StopText(c, Some(Div(ParseInt(d), Int(100))))
  {
    var t := c + " " + d + "%";
    DigitsThenText(d, "%");
    DigitsThenText(d, "");
    assert d + "" == d;
    WordPieces(c, d);
    SeparatorAfterWord(t, |c|);
    NoSeparatorFrom(t, |c| + 1);
    StopOfPieces(t, c, d + "%", RadixValue(d, 10) as real);
  }

  /** The pieces of `c + " " + d + "%"`. */
  lemma WordPieces(c: string, d: string)
    requires c != [] && NoSpace(c) && |d| > 0 && AllDigits(d)
    ensures var t := c + " " + d + "%";
      t[..|c|] == c && t[|c|] == ' ' && t[|c| + 1..] == d + "%" &&
      (forall i :: 0 <= i < |c| ==> !IsSpace(t[i])) &&
      (forall i :: |c| + 1 <= i < |t| ==> !IsSpace(t[i])) &&
      SpanSpace(t[|c|..]) == 1 && PercentAhead(t[|c| + 1..])
  {
    var t := c + " " + d + "%";
    forall i | 0 <= i < |c| ensures !IsSpace(t[i]) { assert t[i] == c[i]; }
    var j := |c| + 1;
    assert t[j..] == d + "%";
    forall i | j <= i < |t| ensures !IsSpace(t[i]) {
      assert t[i] == (d + "%")[i - j];
    }
    assert t[..|c|] == c;
    assert t[|c|..] == " " + (d + "%");
    assert SpanSpace(t[|c|..]) == 1 by { assert t[|c|..][1] == d[0]; }
    SpanDigitsConcat(d, "%");
  }

  /** A single space after a word, with `N%` ahead, is the first separator. */
  lemma SeparatorAfterWord(t: string, k: nat)
    requires k < |t| && t[k] == ' '
    requires forall i :: 0 <= i < k ==> !IsSpace(t[i])
    requires SpanSpace(t[k..]) == 1 && PercentAhead(t[k + 1..])
    ensures StopSeparator(t, 0) == Some((k, k + 1))
  {
    SkipWord(t, 0, k);
  }

  /** No separator starts in a text without spaces. */
  lemma NoSeparatorFrom(t: string, j: nat)
    requires j <= |t|
    requires forall i :: j <= i < |t| ==> !IsSpace(t[i])
    ensures StopSeparator(t, j) == None
  {
    SkipWord(t, j, |t|);
  }

  lemma StopOfPieces(t: string, c: string, p: string, v: real)
    requires c != [] && NoSpace(c) && |c| + 1 < |t|
    requires forall i :: 0 <= i < |c| ==> !IsSpace(t[i])
    requires forall i :: |c| + 1 <= i < |t| ==> !IsSpace(t[i])
    requires t[..|c|] == c && t[|c| + 1..] == p && ParseInt(p) == Fin(v)
    requires StopSeparator(t, 0) == Some((|c|, |c| + 1)) && StopSeparator(t, |c| + 1) == None
    ensures ParseStop(t) == StopText(c, Some(Div(Fin(v), Int(100))))
  {
    assert !IsSpace(t[0]) && !IsSpace(t[|t| - 1]);
    TrimUnchanged(t);
    TrimUnchanged(c);
    StopPieces(t, |c|, |c| + 1);
    var a, b := t[..|c|], t[|c| + 1..];
    assert Trim(a) == c;
    assert ParseInt(b) == Fin(v);
    assert ParseStop(t) == StopText(Trim(a), Some(Div(ParseInt(b), Int(100))));
  }

  /** A stop piece that runs to the end of the text. */
  lemma StopPieces(t: string, i: nat, j: nat)
    requires Trim(t) == t && i < j <= |t|
    requires StopSeparator(t, 0) == Some((i, j)) && StopSeparator(t, j) == None
    ensures ParseStop(t) == StopText(Trim(t[..i]), Some(Div(ParseInt(t[j..]), Int(100))))
  {
    assert t[j..|t|] == t[j..];
  }

  /** An argument with no space in it is all colour, with no explicit stop. */
  lemma NoSpaceNoStop(param: string)
    requires param != [] && NoSpace(param)
    ensures ParseStop(param) == StopText(param, None)
  {
    TrimUnchanged(param);
    SkipWord(param, 0, |param|);
  }

  /** The angle of a linear gradient: a first argument containing `deg` is read
      by parseFloat, one starting with `to` is a direction, and the default is
      180 (to bottom). */
  function LinearAngle(first: string): Num {
    if Contains(first, "deg") then ParseFloat(first)
    else if StartsWith(first, "to") then AngleFromDirection(first)
    else Int(180)
  }

  /** Whether the first argument is an angle or direction, and so not a colour. */
  predicate AngleArgument(first: string) {
    Contains(first, "deg") || StartsWith(first, "to")
  }

  /** The gradient `drawLinearGradient` sets as the fill style: the line through
      the centre of the canvas at the angle, from `(w/2 - cos·w/2, h/2 - sin·h/2)`
      to `(w/2 + cos·w/2, h/2 + sin·h/2)` for the angle less 90 degrees. */
  function LinearPaint(args: string, w: nat, h: nat, t: Trig): (p: Paint)
    ensures p.LinearGradient?
  {
    var params := SplitArgs(args);
    var first := Trim(params[0]);
    var angle := LinearAngle(first);
    var colors := if AngleArgument(first) then params[1..] else params;
    var rad := Mul(Sub(angle, Int(90)), Div(Fin(t.pi), Int(180)));
    var dx := Div(Mul(MathCos(t, rad), Int(w)), Int(2));
    var dy := Div(Mul(MathSin(t, rad), Int(h)), Int(2));
    var cx := Div(Int(w), Int(2));
    var cy := Div(Int(h), Int(2));
    LinearGradient(Sub(cx, dx), Sub(cy, dy), Add(cx, dx), Add(cy, dy), Stops(colors))
  }

  /** `drawLinearGradient`: nothing when `linear-gradient(...)` does not match. */
  function LinearCommands(image: string, w: nat, h: nat, t: Trig): seq<DrawCmd> {
    match FindGroup(image, "linear-gradient", Greedy)
    case None => []
    case Some(args) => [SetFillStyle(LinearPaint(args, w, h, t))]
  }

  /** Finite arguments give a finite sum, difference and product, and a
      finite quotient by a non-zero divisor. */
  lemma FiniteClosed(x: Num, y: Num)
    requires x.Fin? && y.Fin?
    ensures Add(x, y).Fin? && Sub(x, y).Fin? && Mul(x, y).Fin?
    ensures y.v != 0.0 ==> Div(x, y).Fin?
  {
  }

  /** The two points `w/2 - dx` and `w/2 + dx` lie symmetric about `w/2`. */
  lemma CentreSymmetric(w: nat, dx: Num)
    requires dx.Fin?
    ensures var cx := Div(Int(w), Int(2));
      Sub(cx, dx).Fin? && Add(cx, dx).Fin? && Sub(cx, dx).v + Add(cx, dx).v == w as real
  {
  }

  /** For a finite angle the two end points are symmetric about the centre of
      the canvas. */
  lemma LinearSymmetric(args: string, w: nat, h: nat, t: Trig)
    requires LinearAngle(Trim(SplitArgs(args)[0])).Fin?
    ensures var p := LinearPaint(args, w, h, t);
      p.x0.Fin? && p.x1.Fin? && p.y0.Fin? && p.y1.Fin? &&
      p.x0.v + p.x1.v == w as real && p.y0.v + p.y1.v == h as real
  {
    var angle := LinearAngle(Trim(SplitArgs(args)[0]));
    FiniteClosed(angle, Int(90));
    FiniteClosed(Fin(t.pi), Int(180));
    FiniteClosed(Sub(angle, Int(90)), Div(Fin(t.pi), Int(180)));
    var rad := Mul(Sub(angle, Int(90)), Div(Fin(t.pi), Int(180)));
    FiniteClosed(MathCos(t, rad), Int(w));
    FiniteClosed(Mul(MathCos(t, rad), Int(w)), Int(2));
    FiniteClosed(MathSin(t, rad), Int(h));
    FiniteClosed(Mul(MathSin(t, rad), Int(h)), Int(2));
    CentreSymmetric(w, Div(Mul(MathCos(t, rad), Int(w)), Int(2)));
    CentreSymmetric(h, Div(Mul(MathSin(t, rad), Int(h)), Int(2)));
  }

  /** `N deg` sets the angle to N. */
  lemma DegreeAngle(d: string, rest: string)
    requires |d| > 0 && AllDigits(d)
    ensures LinearAngle(d + "deg" + rest) == Fin(RadixValue(d, 10) as real)
  {
    var s := d + "deg" + rest;
    assert s == d + ("deg" + rest);
    assert StartsWith(s[|d|..], "deg") by { assert s[|d|..][..3] == "deg"; }
    ContainsAt(s, "deg", |d|);
    DigitsThenText(d, "deg" + rest);
  }

  /** A first argument starting with `to` and without `deg` is a direction. */
  lemma DirectionArgument(first: string)
    requires StartsWith(first, "to") && 'd' !in first
    ensures LinearAngle(first) == AngleFromDirection(first)
  {
    NoDegIn(first);
  }

  lemma {:induction false} ContainsAt(s: string, u: string, k: nat)
    requires k <= |s| && StartsWith(s[k..], u)
    ensures Contains(s, u)
    decreases k
  {
    if k == 0 {
      assert s[0..] == s;
    } else {
      assert s[1..][k - 1..] == s[k..];
      ContainsAt(s[1..], u, k - 1);
    }
  }

  lemma {:induction false} NoDegIn(s: string)
    requires 'd' !in s
    ensures !Contains(s, "deg")
    decreases |s|
  {
    if s != [] {
      assert !StartsWith(s, "deg") by { assert s[0] != 'd'; }
      assert 'd' !in s[1..] by { forall j | 0 <= j < |s[1..]| ensures s[1..][j] != 'd' { assert s[1..][j] == s[j + 1]; } }
      NoDegIn(s[1..]);
    }
  }

  // ---------------------------------------------------------------------
  // radial-gradient()

  /** The first of `words` that `s` starts with, in the order given. */
  function WordAt(s: string, words: seq<string>): (r: Option<string>)
    ensures r.Some? ==> r.value in words && StartsWith(s, r.value)
    ensures r.None? ==> forall w :: w in words ==> !StartsWith(s, w)
  {
    if words == [] then None
    else if StartsWith(s, words[0]) then Some(words[0])
    else WordAt(s, words[1..])
  }

  /** The group of `/(w1|w2|...)/`: the alternative matched at the leftmost
      position of `s` where one matches. */
  function LeftmostWord(s: string, words: seq<string>): (r: Option<string>)
    ensures r.Some? ==> r.value in words && Contains(s, r.value)
    decreases |s|
  {
    match WordAt(s, words)
    case Some(w) => Some(w)
    case None => if s == [] then None else LeftmostWord(s[1..], words)
  }

  /** Whenever one of the words occurs in `s`, the search finds a word. */
  lemma {:induction false} LeftmostWordFound(s: string, words: seq<string>, w: string)
    requires w in words && Contains(s, w)
    ensures LeftmostWord(s, words).Some?
    decreases |s|
  {
    if WordAt(s, words).None? {
      assert !StartsWith(s, w);
      LeftmostWordFound(s[1..], words, w);
    }
  }

  const Shapes: seq<string> := ["circle", "ellipse"]

  const SizeWords: seq<string> := ["closest-side", "closest-corner", "farthest-side", "farthest-corner"]

  /** The group of `/at\s+([^)]+)/` when the match starts at `p`: `at`, a run of
      spaces, then everything up to the next `)`.  When the spaces run up to a
      `)` or to the end, the space run gives its last space back to the group. */
  function AtGroupAt(s: string, p: nat): (g: Option<string>)
    requires p <= |s|
    ensures g.Some? ==> g.value != [] && ')' !in g.value
  {
    if !StartsWith(s[p..], "at") then None
    else
      var r := s[p + 2..];
      var k := SpanSpace(r);
      if k == 0 then None
      else if k < |r| && r[k] != ')' then
        var n := SpanNotClose(r[k..]);
        assert n > 0 && (forall i :: 0 <= i < n ==> r[k..][i] == r[k..][..n][i]);
        Some(r[k..][..n])
      else if k >= 2 then
        assert r[..k][k - 1] == r[k - 1];
        Some([r[k - 1]])
      else None
  }

  /** The first match of `/at\s+([^)]+)/` at `p` or later. */
  function AtGroup(s: string, p: nat): (g: Option<string>)
    requires p <= |s|
    ensures g.Some? ==> g.value != [] && ')' !in g.value
    decreases |s| - p
  {
    match AtGroupAt(s, p)
    case Some(g) => Some(g)
    case None => if p == |s| then None else AtGroup(s, p + 1)
  }

  /** `at` followed by one space and a position without `)` gives that position. */
  lemma AtPosition(shape: string, pos: string)
    requires (forall i :: 0 <= i < |shape| - 1 ==> shape[i] != 'a' || shape[i + 1] != 't')
    requires |shape| > 0 ==> shape[|shape| - 1] != 'a'
    requires pos != [] && !IsSpace(pos[0]) && ')' !in pos
    ensures AtGroup(shape + "at " + pos, 0) == Some(pos)
  {
    var s := shape + "at " + pos;
    NoAtBefore(s, shape, 0);
    var p := |shape|;
    assert StartsWith(s[p..], "at") by { assert s[p..][..2] == "at"; }
    var r := s[p + 2..];
    assert r == " " + pos;
    assert SpanSpace(r) == 1 by { assert r[1] == pos[0]; assert r[1..] == pos; }
    assert r[1..] == pos;
    assert r[1] != ')' by { assert r[1] == pos[0]; }
    NoCloseSpan(pos);
    assert pos[..|pos|] == pos;
    assert AtGroupAt(s, p) == Some(pos);
  }

  lemma {:induction false} NoCloseSpan(t: string)
    requires ')' !in t
    ensures SpanNotClose(t) == |t|
    decreases |t|
  {
    if t != [] {
      assert ')' !in t[1..] by { forall j | 0 <= j < |t[1..]| ensures t[1..][j] != ')' { assert t[1..][j] == t[j + 1]; } }
      NoCloseSpan(t[1..]);
    }
  }

  lemma {:induction false} NoAtBefore(s: string, shape: string, p: nat)
    requires p <= |shape| && StartsWith(s, shape) && |s| >= |shape| + 2
    requires (forall i :: 0 <= i < |shape| - 1 ==> shape[i] != 'a' || shape[i + 1] != 't')
    requires |shape| > 0 ==> shape[|shape| - 1] != 'a'
    ensures AtGroup(s, p) == AtGroup(s, |shape|)
    decreases |shape| - p
  {
    if p < |shape| {
      assert s[p] == shape[p];
      if p + 1 < |shape| { assert s[p + 1] == shape[p + 1]; }
      assert !StartsWith(s[p..], "at") by { assert s[p..][0] == s[p] && s[p..][1] == s[p + 1]; }
      NoAtBefore(s, shape, p + 1);
    }
  }

  /** `parseValue` of `parseGradientPosition`: a percentage of the size, a
      keyword, or else the number parseFloat reads. */
  function PositionValue(value: string, size: nat): (n: Num)
    ensures value == "left" || value == "top" ==> n == Int(0)
    ensures value == "right" || value == "bottom" ==> n == Int(size)
    ensures value == "center" ==> n == Div(Int(size), Int(2))
  {
    if EndsWith(value, "%") then Div(Mul(Int(size), ParseFloat(value)), Int(100))
    else if value == "left" || value == "top" then Int(0)
    else if value == "center" then Div(Int(size), Int(2))
    else if value == "right" || value == "bottom" then Int(size)
    else ParseFloat(value)
  }

  /** `N%` is N hundredths of the size. */
  lemma PercentPosition(d: string, size: nat)
    requires |d| > 0 && AllDigits(d)
    ensures PositionValue(d + "%", size) == Div(Mul(Int(size), Int(RadixValue(d, 10))), Int(100))
  {
    assert EndsWith(d + "%", "%") by { assert (d + "%")[|d|..] == "%"; }
    DigitsThenText(d, "%");
  }

  /** The keywords agree with the percentages: `left` and `top` are 0%,
      `center` is 50%, `right` and `bottom` are 100%. */
  lemma KeywordsArePercentages(size: nat)
    ensures PositionValue("0%", size) == PositionValue("left", size)
    ensures PositionValue("50%", size) == PositionValue("center", size)
    ensures PositionValue("100%", size) == PositionValue("right", size)
  {
    ZeroPercent(size);
    HalfPercent(size);
    HundredPercent(size);
  }

  lemma ZeroPercent(size: nat)
    ensures PositionValue("0%", size) == Int(0)
  {
    ZeroDigits();
    PercentPosition("0", size);
    assert "0" + "%" == "0%";
  }

  lemma HalfPercent(size: nat)
    ensures PositionValue("50%", size) == Div(Int(size), Int(2))
  {
    FiftyDigits();
    PercentPosition("50", size);
    assert "50" + "%" == "50%";
    FiftyHundredths(size);
  }

  lemma HundredPercent(size: nat)
    ensures PositionValue("100%", size) == Int(size)
  {
    HundredDigits();
    PercentPosition("100", size);
    assert "100" + "%" == "100%";
    HundredHundredths(size);
  }

  lemma FiftyHundredths(size: nat)
    ensures Div(Mul(Int(size), Int(50)), Int(100)) == Div(Int(size), Int(2))
  {
    var x := size as real;
    assert Mul(Int(size), Int(50)) == Fin(x * 50.0);
    assert (x * 50.0) / 100.0 == x / 2.0;
  }

  lemma HundredHundredths(size: nat)
    ensures Div(Mul(Int(size), Int(100)), Int(100)) == Int(size)
  {
    var x := size as real;
    assert Mul(Int(size), Int(100)) == Fin(x * 100.0);
    assert (x * 100.0) / 100.0 == x;
  }

  /** `parseGradientPosition(x, y, w, h)`.  A position group of one word leaves
      `y` undefined, and reading it throws a TypeError. */
  function GradientPosition(x: string, y: Option<string>, w: nat, h: nat): (r: Result<(Num, Num)>)
    ensures r.Ok? <==> y.Some?
    ensures y.Some? ==> r.value == (PositionValue(x, w), PositionValue(y.value, h))
  {
    match y
    case None => Err("TypeError")
    case Some(yv) => Ok((PositionValue(x, w), PositionValue(yv, h)))
  }

  /** What the first argument of `radial-gradient()` sets. */
  datatype RadialShape = RadialShape(shape: string, size: string, x: Num, y: Num)

  /** The shape, size and centre read from the first argument: ellipse,
      farthest-corner and the canvas centre unless the argument names a shape;
      then the leftmost shape and size keywords and the position after `at`. */
  function ReadShape(shapeParam: string, w: nat, h: nat): (r: Result<RadialShape>)
    ensures !(Contains(shapeParam, "circle") || Contains(shapeParam, "ellipse")) ==>
      r == Ok(RadialShape("ellipse", "farthest-corner", Div(Int(w), Int(2)), Div(Int(h), Int(2))))
    ensures r.Ok? ==> r.value.shape in Shapes && r.value.size in SizeWords
  {
    var shape := "ellipse";
    var size := "farthest-corner";
    var x, y := Div(Int(w), Int(2)), Div(Int(h), Int(2));
    if !(Contains(shapeParam, "circle") || Contains(shapeParam, "ellipse")) then Ok(RadialShape(shape, size, x, y))
    else
      var shape := LeftmostWord(shapeParam, Shapes).GetOr(shape);
      var size := LeftmostWord(shapeParam, SizeWords).GetOr(size);
      match AtGroup(shapeParam, 0)
      case None => Ok(RadialShape(shape, size, x, y))
      case Some(g) =>
        var parts := SplitSpaces(Trim(g));
        var pos :- GradientPosition(parts[0], Parse.Nth(parts, 1), w, h);
        Ok(RadialShape(shape, size, pos.0, pos.1))
  }

  /** Math.hypot of two numbers: an infinite argument gives +Infinity, even
      beside NaN; otherwise NaN if either is NaN. */
  function Hypot(t: Trig, a: Num, b: Num): (r: Num)
    ensures a.Fin? && b.Fin? ==> r.Fin?
  {
    if a.PosInf? || a.NegInf? || b.PosInf? || b.NegInf? then PosInf
    else if a == NaN || b == NaN then NaN
    else Fin(t.sqrt(a.v * a.v + b.v * b.v))
  }

  function Min4(a: Num, b: Num, c: Num, d: Num): Num { MathMin(MathMin(MathMin(a, b), c), d) }

  function Max4(a: Num, b: Num, c: Num, d: Num): Num { MathMax(MathMax(MathMax(a, b), c), d) }

  /** The two radii for a size keyword and a centre (x, y). */
  function SizeRadii(size: string, x: Num, y: Num, w: nat, h: nat, t: Trig): (Num, Num) {
    var dx, dy := Sub(Int(w), x), Sub(Int(h), y);
    if size == "closest-side" then (MathMin(x, dx), MathMin(y, dy))
    else if size == "farthest-side" then (MathMax(x, dx), MathMax(y, dy))
    else if size == "closest-corner" then
      var r := Min4(Hypot(t, x, y), Hypot(t, dx, y), Hypot(t, x, dy), Hypot(t, dx, dy));
      (r, r)
    else
      var r := Max4(Hypot(t, x, y), Hypot(t, dx, y), Hypot(t, x, dy), Hypot(t, dx, dy));
      (r, r)
  }

  /** The radius handed to createRadialGradient: a circle takes the smaller of
      the two radii on both axes, and the gradient uses the larger one. */
  function Radius(s: RadialShape, w: nat, h: nat, t: Trig): Num {
    var (rx, ry) := SizeRadii(s.size, s.x, s.y, w, h, t);
    var (rx, ry) := if s.shape == "circle" then (MathMin(rx, ry), MathMin(rx, ry)) else (rx, ry);
    MathMax(rx, ry)
  }

  /** With a centre inside the canvas, the `closest-side` radius on each axis
      is the distance to the nearer edge, which is at most half the size, and
      the `farthest-side` radius the distance to the farther edge, at least
      half the size. */
  lemma SideRadiiBounds(x: real, y: real, w: nat, h: nat, t: Trig)
    requires 0.0 <= x <= w as real && 0.0 <= y <= h as real
    ensures var (cx, cy) := SizeRadii("closest-side", Fin(x), Fin(y), w, h, t);
      cx == Fin(MinR(x, w as real - x)) && cy == Fin(MinR(y, h as real - y)) &&
      cx.v <= w as real / 2.0 && cy.v <= h as real / 2.0
    ensures var (fx, fy) := SizeRadii("farthest-side", Fin(x), Fin(y), w, h, t);
      fx == Fin(MaxR(x, w as real - x)) && fy == Fin(MaxR(y, h as real - y)) &&
      fx.v >= w as real / 2.0 && fy.v >= h as real / 2.0
  {
    assert Sub(Int(w), Fin(x)) == Fin(w as real - x);
    assert Sub(Int(h), Fin(y)) == Fin(h as real - y);
  }

  /** A circle's radius is the smaller of its two radii; an ellipse's the larger. */
  lemma ShapeRadius(s: RadialShape, w: nat, h: nat, t: Trig)
    ensures var (rx, ry) := SizeRadii(s.size, s.x, s.y, w, h, t);
      Radius(s, w, h, t) == if s.shape == "circle" then MathMin(rx, ry) else MathMax(rx, ry)
  {
    var (rx, ry) := SizeRadii(s.size, s.x, s.y, w, h, t);
    var m := MathMin(rx, ry);
    assert MathMax(m, m) == m;
  }

  /** The gradient `drawRadialGradient` sets as the fill style: centred on the
      position, from radius 0 to the radius, with the first argument dropped
      from the colours only when it contains `at`. */
  function RadialPaint(args: string, w: nat, h: nat, t: Trig): (r: Result<Paint>)
    ensures r.Ok? ==> r.value.RadialGradient?
  {
    var params := SplitArgs(args);
    var shapeParam := Trim(params[0]);
    var s :- ReadShape(shapeParam, w, h);
    var colors := if Contains(shapeParam, "at") then params[1..] else params;
    Ok(RadialGradient(s.x, s.y, Radius(s, w, h, t), Stops(colors)))
  }

  /** `drawRadialGradient`: nothing when `radial-gradient(...)` does not match. */
  function RadialCommands(image: string, w: nat, h: nat, t: Trig): Result<seq<DrawCmd>> {
    match FindGroup(image, "radial-gradient", Greedy)
    case None => Ok([])
    case Some(args) =>
      var p :- RadialPaint(args, w, h, t);
      Ok([SetFillStyle(p)])
  }

  /** `drawBackgroundGradient`: the linear painter when the image mentions
      `linear-gradient`, else the radial one when it mentions
      `radial-gradient`, then a fill of the whole canvas. */
  function GradientCommands(image: string, w: nat, h: nat, t: Trig): (r: Result<seq<DrawCmd>>)
    ensures r.Ok? ==> |r.value| >= 1 && r.value[|r.value| - 1] == FillRect(Int(0), Int(0), Int(w), Int(h))
    ensures r.Ok? ==> forall i :: 0 <= i < |r.value| - 1 ==> r.value[i].SetFillStyle?
  {
    var fill := [FillRect(Int(0), Int(0), Int(w), Int(h))];
    if Contains(image, "linear-gradient") then Ok(LinearCommands(image, w, h, t) + fill)
    else if Contains(image, "radial-gradient") then
      var cs :- RadialCommands(image, w, h, t);
      Ok(cs + fill)
    else Ok(fill)
  }

  /** Without `at`, every argument is a colour, even one naming the shape. */
  lemma RadialWithoutAt(args: string, w: nat, h: nat, t: Trig)
    requires !Contains(Trim(SplitArgs(args)[0]), "at")
    ensures RadialPaint(args, w, h, t).Ok? && RadialPaint(args, w, h, t).value.stops == Stops(SplitArgs(args))
  {
    var params := SplitArgs(args);
    var shapeParam := Trim(params[0]);
    if Contains(shapeParam, "circle") || Contains(shapeParam, "ellipse") {
      AtNeedsAt(shapeParam, 0);
      assert shapeParam[0..] == shapeParam;
    }
    var shape := ReadShape(shapeParam, w, h);
    assert shape.Ok?;
    assert RadialPaint(args, w, h, t) ==
      Ok(RadialGradient(shape.value.x, shape.value.y, Radius(shape.value, w, h, t), Stops(params)));
  }

  /** A text without `at` has no `at` group. */
  lemma {:induction false} AtNeedsAt(s: string, p: nat)
    requires p <= |s| && !Contains(s[p..], "at")
    ensures AtGroup(s, p).None?
    decreases |s| - p
  {
    if p < |s| {
      assert s[p..][1..] == s[p + 1..];
      AtNeedsAt(s, p + 1);
    }
  }

  /** A one-word position after `at` fails: the missing second coordinate is
      read as a string. */
  lemma OneWordPosition(shapeParam: string, w: nat, h: nat)
    requires Contains(shapeParam, "circle") || Contains(shapeParam, "ellipse")
    requires AtGroup(shapeParam, 0).Some?
    requires |SplitSpaces(Trim(AtGroup(shapeParam, 0).value))| == 1
    ensures ReadShape(shapeParam, w, h).Err?
  {
  }

  /** `drawRadialGradient` on the context: the shape, size and centre start at
      their defaults and are overwritten from the first argument; a one-word
      position throws before anything is drawn. */
  method DrawRadialGradient(ctx: Context, image: string, t: Trig) returns (ok: bool)
    modifies ctx
    ensures ctx.width == old(ctx.width) && ctx.height == old(ctx.height)
    ensures ok == RadialCommands(image, old(ctx.width), old(ctx.height), t).Ok?
    ensures ok ==> ctx.log == old(ctx.log) + RadialCommands(image, old(ctx.width), old(ctx.height), t).value
    ensures !ok ==> ctx.log == old(ctx.log)
  {
    var w, h := ctx.width, ctx.height;
    var radialMatch := FindGroup(image, "radial-gradient", Greedy);
    if radialMatch.None? {
      return true;
    }
    var params := SplitArgs(radialMatch.value);
    var shapeParam := Trim(params[0]);
    var read := ReadRadialShape(shapeParam, w, h);
    if read.Err? {
      return false;
    }
    var s := read.value;
    var shape, size, x, y := s.shape, s.size, s.x, s.y;
    var radii := SizeRadii(size, x, y, w, h, t);
    var radiusX, radiusY := radii.0, radii.1;
    if shape == "circle" {
      var m := MathMin(radiusX, radiusY);
      radiusX, radiusY := m, m;
    }
    assert MathMax(radiusX, radiusY) == Radius(s, w, h, t);
    var colorParams := if Contains(shapeParam, "at") then params[1..] else params;
    var paint := RadialGradient(x, y, MathMax(radiusX, radiusY), Stops(colorParams));
    assert RadialPaint(radialMatch.value, w, h, t) == Ok(paint);
    ctx.Do(SetFillStyle(paint));
    return true;
  }

  /** The shape, the size and the centre the radial painter reads from its
      first argument; `Err` when the position after `at` throws. */
  method ReadRadialShape(shapeParam: string, w: nat, h: nat) returns (r: Result<RadialShape>)
    ensures r == ReadShape(shapeParam, w, h)
  {
    var shape, size := "ellipse", "farthest-corner";
    var x, y := Div(Int(w), Int(2)), Div(Int(h), Int(2));
    if Contains(shapeParam, "circle") || Contains(shapeParam, "ellipse") {
      var shapeMatch := LeftmostWord(shapeParam, Shapes);
      if shapeMatch.Some? {
        shape := shapeMatch.value;
      }
      var sizeMatch := LeftmostWord(shapeParam, SizeWords);
      if sizeMatch.Some? {
        size := sizeMatch.value;
      }
      var posMatch := AtGroup(shapeParam, 0);
      if posMatch.Some? {
        var parts := SplitSpaces(Trim(posMatch.value));
        var position := GradientPosition(parts[0], Parse.Nth(parts, 1), w, h);
        if position.Err? {
          return Err(position.error);
        }
        x, y := position.value.0, position.value.1;
      }
    }
    return Ok(RadialShape(shape, size, x, y));
  }

  /** `drawBackgroundGradient`: sets the gradient, then fills the canvas with
      it.  When the radial painter throws, nothing is drawn. */
  method DrawBackgroundGradient(ctx: Context, image: string, t: Trig) returns (ok: bool)
    modifies ctx
    ensures ctx.width == old(ctx.width) && ctx.height == old(ctx.height)
    ensures ok == GradientCommands(image, old(ctx.width), old(ctx.height), t).Ok?
    ensures ok ==> ctx.log == old(ctx.log) + GradientCommands(image, old(ctx.width), old(ctx.height), t).value
    ensures !ok ==> ctx.log == old(ctx.log)
  {
    if Contains(image, "linear-gradient") {
      ctx.DoAll(LinearCommands(image, ctx.width, ctx.height, t));
    } else if Contains(image, "radial-gradient") {
      ok := DrawRadialGradient(ctx, image, t);
      if !ok {
        return;
      }
    }
    ctx.Do(FillRect(Int(0), Int(0), Int(ctx.width), Int(ctx.height)));
    ok := true;
  }
}
