/** The colour helpers of the UI kit: hexadecimal notation (`#rgb`, `#rrggbb`),
    the text `rgb(r, g, b)` and lists of channel numbers, converted into one
    another.  A helper that throws in JavaScript gives an `Err` here. */
module Color {
  import opened Js
  import opened Text
  import opened NumText
  import opened Wrappers
  import opened Patterns

  /** The hexadecimal digits of a 3-digit colour, each written twice. */
  function Doubled(s: string): (d: string)
    ensures |d| == 2 * |s|
    ensures forall i :: 0 <= i < |s| ==> d[2 * i] == s[i] && d[2 * i + 1] == s[i]
  {
    if s == [] then []
    else
      var t := Doubled(s[1..]);
      assert forall i :: 1 <= i < |s| ==> t[2 * (i - 1)] == s[i] && t[2 * (i - 1) + 1] == s[i];
      [s[0], s[0]] + t
  }

  /** `s.match(/.{1,2}/g)`: leftmost runs of two characters (one before a line
      terminator or at the end), line terminators skipped.  An empty result
      stands for JavaScript's `null`. */
  function Chunks(s: string): (cs: seq<string>)
    ensures forall i :: 0 <= i < |cs| ==> 1 <= |cs[i]| <= 2 && NoLineTerminator(cs[i])
    decreases |s|
  {
    if s == [] then []
    else if IsLineTerminator(s[0]) then Chunks(s[1..])
    else if |s| >= 2 && !IsLineTerminator(s[1]) then [s[..2]] + Chunks(s[2..])
    else [s[..1]] + Chunks(s[1..])
  }

  /** Each chunk read with `parseInt(_, 16)` and printed in decimal. */
  function HexValues(pairs: seq<string>): (ts: seq<string>)
    ensures |ts| == |pairs|
  {
    seq(|pairs|, i requires 0 <= i < |pairs| => DecimalText(ParseIntHex(pairs[i])))
  }

  /** The text of a number `parseInt` produced: an integer or NaN. */
  function DecimalText(n: Num): string {
    match n
    case Fin(x) => IntToString(Floor(x))
    case NaN => "NaN"
    case PosInf => "Infinity"
    case NegInf => "-Infinity"
  }

  /** The text after the first character, with a 3-digit body doubled. */
  function ExpandedBody(hex: string): string {
    var body := if hex == [] then [] else hex[1..];
    if |body| == 3 then Doubled(body) else body
  }

  /** What `hexToRgb(hex)` returns: `rgb(r, g, b)` from the hexadecimal pairs,
      or an error when the body is not 6 characters long once expanded (and
      when it holds nothing but line terminators, which `match` turns into
      `null`). */
  function RgbOfHex(hex: string): (r: Result<string>)
    ensures r.Ok? ==> StartsWith(r.value, "rgb(") && EndsWith(r.value, ")")
  {
    var body := ExpandedBody(hex);
    if |body| != 6 then Err("invalid hex colour: only #rgb and #rrggbb are accepted")
    else
      var pairs := Chunks(body);
      if pairs == [] then Err("TypeError: cannot read properties of null")
      else
        var r := "rgb(" + Join(HexValues(pairs), ", ") + ")";
        assert r[..4] == "rgb(" && r[|r| - 1..] == ")";
        Ok(r)
  }

  /** `hexToRgb`: drops the first character, doubles each digit of a 3-digit
      body through an accumulator, then reads the body two characters at a time. */
  method HexToRgb(hex0: string) returns (r: Result<string>)
    ensures r == RgbOfHex(hex0)
  {
    var hex := if hex0 == [] then [] else hex0[1..];
    if |hex| == 3 {
      var acc: seq<string> := [];
      for i := 0 to |hex|
        invariant acc == seq(i, k requires 0 <= k < i => [hex[k], hex[k]])
      {
        acc := acc + [[hex[i], hex[i]]];
      }
      JoinDoubled(hex);
      hex := Join(acc, "");
    }
    if |hex| != 6 {
      return Err("invalid hex colour: only #rgb and #rrggbb are accepted");
    }
    var pairs := Chunks(hex);
    if pairs == [] {
      return Err("TypeError: cannot read properties of null");
    }
    r := Ok("rgb(" + Join(HexValues(pairs), ", ") + ")");
  }

  /** Joining the doubled digits gives the doubled body. */
  lemma {:induction false} JoinDoubled(s: string)
    ensures Join(seq(|s|, k requires 0 <= k < |s| => [s[k], s[k]]), "") == Doubled(s)
    decreases |s|
  {
    if s != [] {
      var xs := seq(|s|, k requires 0 <= k < |s| => [s[k], s[k]]);
      JoinDoubled(s[1..]);
      assert xs[1..] == seq(|s| - 1, k requires 0 <= k < |s| - 1 => [s[1..][k], s[1..][k]]);
      if |s| == 1 {
        assert s[1..] == [];
      }
    }
  }

  /** `rgb.slice(4, -1)`: the text from the fifth character up to the last one. */
  function Inner(rgb: string): string {
    if |rgb| <= 5 then "" else rgb[4..|rgb| - 1]
  }

  /** Each piece trimmed and converted with `Number`. */
  function Numbers(parts: seq<string>): (ns: seq<Num>)
    ensures |ns| == |parts|
  {
    seq(|parts|, i requires 0 <= i < |parts| => ToNumber(Trim(parts[i])))
  }

  /** `rgbToColors`: the numbers between `rgb(` and the closing character,
      one per comma-separated piece; an error unless the text starts with `rgb`. */
  function RgbToColors(rgb: string): (r: Result<seq<Num>>)
    ensures r.Err? <==> !StartsWith(rgb, "rgb")
    ensures r.Ok? ==> |r.value| == Count(Inner(rgb), ',') + 1
  {
    if !StartsWith(rgb, "rgb") then Err("invalid colour: only rgb() is accepted")
    else
      SplitLength(Inner(rgb), ',');
      Ok(Numbers(Split(Inner(rgb), ',')))
  }

  /** `hexToColors`. */
  function HexToColors(hex: string): (r: Result<seq<Num>>)
    ensures RgbOfHex(hex).Err? ==> r.Err?
  {
    var rgb :- RgbOfHex(hex);
    RgbToColors(rgb)
  }

  /** `intToHex`: the number in base 16, with a leading `0` when that is one
      character long. */
  function IntToHex(n: Num, frac: (real, nat) -> string): string {
    var hex := NumToString(n, 16, frac);
    if |hex| == 1 then "0" + hex else hex
  }

  /** `colorsToRgb`: the numbers joined by `, ` inside `rgb(` and `)`. */
  function ColorsToRgb(colors: seq<Num>, frac: (real, nat) -> string): (s: string)
    ensures StartsWith(s, "rgb(") && EndsWith(s, ")")
  {
    var s := "rgb(" + Join(seq(|colors|, i requires 0 <= i < |colors| => NumToString(colors[i], 10, frac)), ", ") + ")";
    assert s[..4] == "rgb(" && s[|s| - 1..] == ")";
    s
  }

  /** The hexadecimal text of channel `i`: the fourth channel is an alpha in
      [0, 1], scaled by 255 and rounded first. */
  function ChannelHex(i: nat, n: Num, frac: (real, nat) -> string): string {
    IntToHex(if i == 3 then MathRound(Mul(Int(255), n)) else n, frac)
  }

  /** `rgbToHex`: `#` followed by each channel in hexadecimal. */
  function RgbToHex(rgb: string, frac: (real, nat) -> string): (r: Result<string>)
    ensures r.Err? <==> !StartsWith(rgb, "rgb")
    ensures r.Ok? ==> StartsWith(r.value, "#")
  {
    var colors :- RgbToColors(rgb);
    var s := "#" + Join(seq(|colors|, i requires 0 <= i < |colors| => ChannelHex(i, colors[i], frac)), "");
    assert s[..1] == "#";
    Ok(s)
  }

  /** `colorsToHex`. */
  function ColorsToHex(colors: seq<Num>, frac: (real, nat) -> string): (r: Result<string>)
    ensures r.Ok?
  {
    RgbToHex(ColorsToRgb(colors, frac), frac)
  }

  predicate IsHexDigit(c: char) { IsRadixDigit(c, 16) }

  /** The two lowercase hexadecimal digits of a channel value below 256. */
  function Hex2(n: nat): (s: string)
    requires n < 256
    ensures |s| == 2 && IsHexDigit(s[0]) && IsHexDigit(s[1]) && !('A' <= s[0] <= 'Z') && !('A' <= s[1] <= 'Z')
    ensures 16 * DigitWeight(s[0]) + DigitWeight(s[1]) == n
  {
    [DigitChar(n / 16), DigitChar(n % 16)]
  }

  /** `intToHex` gives exactly the two lowercase digits of a channel value. */
  lemma IntToHexChannel(n: nat, frac: (real, nat) -> string)
    requires n < 256
    ensures IntToHex(Int(n), frac) == Hex2(n)
  {
    assert Floor(n as real) == n;
    if n >= 16 {
      assert NatToRadix(n, 16) == NatToRadix(n / 16, 16) + [DigitChar(n % 16)];
    }
  }

  /** A 3-digit colour expands to the 6-digit colour with each digit doubled. */
  lemma ShortHexDoubled(c: char, x: char, y: char, z: char, d: char)
    ensures RgbOfHex([c, x, y, z]) == RgbOfHex([d, x, x, y, y, z, z])
  {
    var h := [c, x, y, z];
    assert h[1..] == [x, y, z];
    assert [x, y, z][1..] == [y, z] && [y, z][1..] == [z] && [z][1..] == [];
    assert Doubled([z]) == [z, z];
    assert Doubled([y, z]) == [y, y] + Doubled([z]);
    assert Doubled([x, y, z]) == [x, x] + Doubled([y, z]);
    assert [d, x, x, y, y, z, z][1..] == [x, x, y, y, z, z];
    assert ExpandedBody(h) == ExpandedBody([d, x, x, y, y, z, z]);
  }

  /** Any text whose body after the first character is neither 3 nor 6
      characters long is rejected. */
  lemma BadLengthRejected(hex: string)
    requires |hex| != 4 && |hex| != 7
    ensures RgbOfHex(hex).Err? && HexToColors(hex).Err?
  {
  }

  /** Six hexadecimal digits are read as three pairs, most significant first. */
  lemma SixDigitPairs(b: string)
    requires |b| == 6 && forall i :: 0 <= i < 6 ==> IsHexDigit(b[i])
    ensures Chunks(b) == [b[0..2], b[2..4], b[4..6]]
  {
    forall i | 0 <= i < 6 ensures !IsLineTerminator(b[i]) {
      assert IsHexDigit(b[i]);
    }
    var b2, b4 := b[2..], b[4..];
    assert b2[..2] == b[2..4] && b2[2..] == b4 && b4[..2] == b[4..6] && b4[2..] == [];
    assert b[..2] == b[0..2];
    assert Chunks(b4) == [b[4..6]];
    assert Chunks(b2) == [b[2..4]] + Chunks(b4);
    assert Chunks(b) == [b[0..2]] + Chunks(b2);
  }

  /** The channel values of a 6-digit body. */
  function PairValues(b: string): (vs: seq<nat>)
    requires |b| == 6
    ensures |vs| == 3 && forall i :: 0 <= i < 3 ==> vs[i] == 16 * DigitWeight(b[2 * i]) + DigitWeight(b[2 * i + 1])
    ensures (forall i :: 0 <= i < 6 ==> IsHexDigit(b[i])) ==> forall i :: 0 <= i < 3 ==> vs[i] < 256
  {
    [16 * DigitWeight(b[0]) + DigitWeight(b[1]), 16 * DigitWeight(b[2]) + DigitWeight(b[3]),
     16 * DigitWeight(b[4]) + DigitWeight(b[5])]
  }

  /** A `#` and six hexadecimal digits give `rgb(r, g, b)` of the three pairs. */
  lemma SixDigitRgb(hex: string)
    requires |hex| == 7 && forall i :: 1 <= i < 7 ==> IsHexDigit(hex[i])
    ensures RgbOfHex(hex) == Ok("rgb(" + Join(IntTexts(PairValues(hex[1..])), ", ") + ")")
  {
    var b := hex[1..];
    assert ExpandedBody(hex) == b;
    PairTexts(b);
  }

  /** The decimal texts of the three pairs of a 6-digit body, read in pairs. */
  lemma PairTexts(b: string)
    requires |b| == 6 && forall i :: 0 <= i < 6 ==> IsHexDigit(b[i])
    ensures Chunks(b) != [] && HexValues(Chunks(b)) == IntTexts(PairValues(b))
  {
    SixDigitPairs(b);
    var cs, vs := Chunks(b), PairValues(b);
    assert |HexValues(cs)| == 3 == |IntTexts(vs)|;
    forall i | 0 <= i < 3
      ensures HexValues(cs)[i] == IntTexts(vs)[i]
    {
      PairTextAt(b, i);
    }
  }

  /** The decimal text of the `i`-th pair of a 6-digit body, read in pairs. */
  lemma PairTextAt(b: string, i: int)
    requires |b| == 6 && forall k :: 0 <= k < 6 ==> IsHexDigit(b[k])
    requires 0 <= i < 3
    ensures |Chunks(b)| == 3 && HexValues(Chunks(b))[i] == IntTexts(PairValues(b))[i]
  {
    SixDigitPairs(b);
    assert Chunks(b)[i] == [b[2 * i], b[2 * i + 1]];
    PairText(b[2 * i], b[2 * i + 1]);
  }

  /** A pair of hexadecimal digits is printed as its decimal value. */
  lemma PairText(x: char, y: char)
    requires IsHexDigit(x) && IsHexDigit(y)
    ensures DecimalText(ParseIntHex([x, y])) == IntToString(16 * DigitWeight(x) + DigitWeight(y))
  {
    HexPair(x, y);
    var n := 16 * DigitWeight(x) + DigitWeight(y);
    assert Floor(n as real) == n;
  }

  /** The decimal texts of a list of integers. */
  function IntTexts(ks: seq<int>): (ts: seq<string>)
    ensures |ts| == |ks|
  {
    seq(|ks|, i requires 0 <= i < |ks| => IntToString(ks[i]))
  }

  /** Reading back `rgb(...)` with a non-empty list of integers gives the integers. */
  lemma RgbOfIntegers(ks: seq<int>)
    requires |ks| >= 1
    ensures RgbToColors("rgb(" + Join(IntTexts(ks), ", ") + ")") == Ok(seq(|ks|, i requires 0 <= i < |ks| => Int(ks[i])))
  {
    var j := Join(IntTexts(ks), ", ");
    var s := "rgb(" + j + ")";
    assert s[..3] == "rgb";
    assert Inner(s) == j by {
      if |s| > 5 { assert s[4..|s| - 1] == j; } else { assert j == []; }
    }
    SplitIntTexts(ks);
    NumbersOfPieces(ks);
  }

  /** The pieces of the joined texts: each text, behind a space after the first. */
  function Pieces(ks: seq<int>): (ps: seq<string>)
    ensures |ps| == |ks|
  {
    seq(|ks|, i requires 0 <= i < |ks| => (if i == 0 then "" else " ") + IntToString(ks[i]))
  }

  lemma SplitIntTexts(ks: seq<int>)
    requires |ks| >= 1
    ensures Split(Join(IntTexts(ks), ", "), ',') == Pieces(ks)
  {
    var ts := IntTexts(ks);
    forall i | 0 <= i < |ts| ensures ',' !in ts[i] {
      IntTextShape(ks[i]);
    }
    SplitCommaJoin("", ts);
    assert "" + Join(ts, ", ") == Join(ts, ", ");
  }

  lemma NumbersOfPieces(ks: seq<int>)
    ensures Numbers(Pieces(ks)) == seq(|ks|, i requires 0 <= i < |ks| => Int(ks[i]))
  {
    var ps := Pieces(ks);
    forall i | 0 <= i < |ks| ensures ToNumber(Trim(ps[i])) == Int(ks[i]) {
      PieceNumber(ks[i], i == 0);
    }
  }

  /** A piece reads back as its integer, with or without its leading space. */
  lemma PieceNumber(k: int, first: bool)
    ensures ToNumber(Trim((if first then "" else " ") + IntToString(k))) == Int(k)
  {
    var t := IntToString(k);
    IntTextShape(k);
    if first {
      assert "" + t == t;
      TrimUnchanged(t);
    } else {
      TrimLeadingSpace(t);
    }
    IntegerTextRoundTrip(k);
  }

  /** The decimal text of an integer is a non-empty run of digits after an
      optional minus sign. */
  lemma IntTextShape(k: int)
    ensures var t := IntToString(k);
      t != [] && ',' !in t && !IsSpace(t[0]) && !IsSpace(t[|t| - 1])
  {
    var m: nat := if k < 0 then -k else k;
    var d := NatToRadix(m, 10);
    assert forall i :: 0 <= i < |d| ==> IsRadixDigit(d[i], 10);
  }

  /** `rgbToColors(colorsToRgb(xs)) == xs` for every non-empty list of integers. */
  lemma ColorsRgbRoundTrip(xs: seq<Num>, frac: (real, nat) -> string)
    requires |xs| >= 1 && forall i :: 0 <= i < |xs| ==> xs[i].Fin? && Integral(xs[i])
    ensures RgbToColors(ColorsToRgb(xs, frac)) == Ok(xs)
  {
    var ks := seq(|xs|, i requires 0 <= i < |xs| => Floor(xs[i].v));
    forall i | 0 <= i < |xs| ensures NumToString(xs[i], 10, frac) == IntToString(ks[i]) && xs[i] == Int(ks[i]) {
      IntegerText(ks[i], frac);
    }
    assert seq(|xs|, i requires 0 <= i < |xs| => NumToString(xs[i], 10, frac)) == IntTexts(ks);
    assert ColorsToRgb(xs, frac) == "rgb(" + Join(IntTexts(ks), ", ") + ")";
    RgbOfIntegers(ks);
    assert seq(|ks|, i requires 0 <= i < |ks| => Int(ks[i])) == xs;
  }

  /** The empty list does not survive: `rgb()` reads back as one channel 0. */
  lemma EmptyColorsRoundTrip(frac: (real, nat) -> string)
    ensures RgbToColors(ColorsToRgb([], frac)) == Ok([Int(0)])
  {
    var none: seq<string> := [];
    assert Join(none, ", ") == "";
    assert ColorsToRgb([], frac) == "rgb()";
    assert Inner("rgb()") == "";
    assert Split("", ',') == [""];
    assert Trim("") == "";
    assert Numbers([""]) == [ToNumber("")];
  }

  /** `#` and six hexadecimal digits give the channel values of the three pairs. */
  lemma SixDigitColors(hex: string)
    requires |hex| == 7 && forall i :: 1 <= i < 7 ==> IsHexDigit(hex[i])
    ensures HexToColors(hex) == Ok(seq(3, i requires 0 <= i < 3 => Int(PairValues(hex[1..])[i])))
  {
    SixDigitRgb(hex);
    RgbOfIntegers(PairValues(hex[1..]));
  }

  /** `hexToColors('#fff')` and `hexToColors('#ffffff')` are both white. */
  lemma WhiteShortAndLong()
    ensures HexToColors("#fff") == HexToColors("#ffffff") == Ok([Int(255), Int(255), Int(255)])
  {
    WhiteLong();
    assert "#fff" == ['#', 'f', 'f', 'f'] && "#ffffff" == ['#', 'f', 'f', 'f', 'f', 'f', 'f'];
    ShortHexDoubled('#', 'f', 'f', 'f', '#');
  }

  lemma WhiteLong()
    ensures HexToColors("#ffffff") == Ok([Int(255), Int(255), Int(255)])
  {
    var long := "#ffffff";
    WhiteDigits();
    SixDigitColors(long);
    WhitePairs();
    ThreeChannels(PairValues(long[1..]));
  }

  lemma WhiteDigits()
    ensures forall i :: 1 <= i < 7 ==> IsHexDigit("#ffffff"[i])
  {
    var long := "#ffffff";
    forall i | 1 <= i < 7 ensures IsHexDigit(long[i]) {
      if i == 1 {} else if i == 2 {} else if i == 3 {} else if i == 4 {} else if i == 5 {} else {}
    }
  }

  lemma WhitePairs()
    ensures PairValues("#ffffff"[1..]) == [255, 255, 255]
  {
    var body := "#ffffff"[1..];
    assert DigitWeight('f') == 15;
    assert body == ['f', 'f', 'f', 'f', 'f', 'f'];
  }

  /** `rgbToHex` of a text whose channels are `cs`. */
  lemma RgbToHexOf(rgb: string, cs: seq<Num>, frac: (real, nat) -> string)
    requires RgbToColors(rgb) == Ok(cs)
    ensures RgbToHex(rgb, frac) == Ok("#" + Join(seq(|cs|, i requires 0 <= i < |cs| => ChannelHex(i, cs[i], frac)), ""))
  {
  }

  /** `colorsToHex(hexToColors(h))` is `h` in lowercase, for `#` and six
      hexadecimal digits. */
  lemma HexRoundTrip(hex: string, frac: (real, nat) -> string)
    requires |hex| == 7 && hex[0] == '#' && forall i :: 1 <= i < 7 ==> IsHexDigit(hex[i])
    ensures HexToColors(hex).Ok? && ColorsToHex(HexToColors(hex).value, frac) == Ok(ToLower(hex))
  {
    SixDigitColors(hex);
    ThreeChannels(PairValues(hex[1..]));
    PairsToHex(hex, frac);
    LowerSeven(hex);
  }

  lemma ThreeChannels(vs: seq<int>)
    requires |vs| == 3
    ensures seq(3, i requires 0 <= i < 3 => Int(vs[i])) == [Int(vs[0]), Int(vs[1]), Int(vs[2])]
  {
  }

  /** The three channel values of a 6-digit colour are written back as its
      digits in lowercase. */
  lemma PairsToHex(hex: string, frac: (real, nat) -> string)
    requires |hex| == 7 && forall i :: 1 <= i < 7 ==> IsHexDigit(hex[i])
    ensures var vs := PairValues(hex[1..]);
      ColorsToHex([Int(vs[0]), Int(vs[1]), Int(vs[2])], frac) ==
      Ok(['#', LowerChar(hex[1]), LowerChar(hex[2]), LowerChar(hex[3]), LowerChar(hex[4]),
          LowerChar(hex[5]), LowerChar(hex[6])])
  {
    var vs := PairValues(hex[1..]);
    var xs := [Int(vs[0]), Int(vs[1]), Int(vs[2])];
    IntegersToHex(xs, frac);
    PairChannels(hex, frac);
    var p0 := [LowerChar(hex[1]), LowerChar(hex[2])];
    var p1 := [LowerChar(hex[3]), LowerChar(hex[4])];
    var p2 := [LowerChar(hex[5]), LowerChar(hex[6])];
    Join3("#", p0, p1, p2);
    Pairs7('#', p0, p1, p2);
  }

  lemma Pairs7(c: char, p0: string, p1: string, p2: string)
    requires |p0| == |p1| == |p2| == 2
    ensures [c] + p0 + p1 + p2 == [c, p0[0], p0[1], p1[0], p1[1], p2[0], p2[1]]
  {
  }

  /** `colorsToHex` of a non-empty list of integers writes each channel in hexadecimal. */
  lemma IntegersToHex(xs: seq<Num>, frac: (real, nat) -> string)
    requires |xs| >= 1 && forall i :: 0 <= i < |xs| ==> xs[i].Fin? && Integral(xs[i])
    ensures ColorsToHex(xs, frac) == Ok("#" + Join(seq(|xs|, i requires 0 <= i < |xs| => ChannelHex(i, xs[i], frac)), ""))
  {
    ColorsRgbRoundTrip(xs, frac);
    RgbToHexOf(ColorsToRgb(xs, frac), xs, frac);
  }

  lemma PairChannels(hex: string, frac: (real, nat) -> string)
    requires |hex| == 7 && forall i :: 1 <= i < 7 ==> IsHexDigit(hex[i])
    ensures var vs := PairValues(hex[1..]);
      var xs := [Int(vs[0]), Int(vs[1]), Int(vs[2])];
      seq(3, i requires 0 <= i < 3 => ChannelHex(i, xs[i], frac)) ==
      [[LowerChar(hex[1]), LowerChar(hex[2])], [LowerChar(hex[3]), LowerChar(hex[4])],
       [LowerChar(hex[5]), LowerChar(hex[6])]]
  {
    var vs := PairValues(hex[1..]);
    var xs := [Int(vs[0]), Int(vs[1]), Int(vs[2])];
    ChannelOfPair(hex, 0, frac);
    ChannelOfPair(hex, 1, frac);
    ChannelOfPair(hex, 2, frac);
  }

  lemma LowerSeven(hex: string)
    requires |hex| == 7 && hex[0] == '#'
    ensures ToLower(hex) == ['#', LowerChar(hex[1]), LowerChar(hex[2]), LowerChar(hex[3]),
      LowerChar(hex[4]), LowerChar(hex[5]), LowerChar(hex[6])]
  {
    var t := ToLower(hex);
    assert t[0] == '#' && t[1] == LowerChar(hex[1]) && t[2] == LowerChar(hex[2]);
    assert t[3] == LowerChar(hex[3]) && t[4] == LowerChar(hex[4]);
    assert t[5] == LowerChar(hex[5]) && t[6] == LowerChar(hex[6]);
  }

  /** Channel `i` of a 6-digit colour is written back as its two digits in lowercase. */
  lemma ChannelOfPair(hex: string, i: nat, frac: (real, nat) -> string)
    requires |hex| == 7 && forall k :: 1 <= k < 7 ==> IsHexDigit(hex[k])
    requires i < 3
    ensures ChannelHex(i, Int(PairValues(hex[1..])[i]), frac) == [LowerChar(hex[2 * i + 1]), LowerChar(hex[2 * i + 2])]
  {
    var x, y := hex[2 * i + 1], hex[2 * i + 2];
    assert PairValues(hex[1..])[i] == 16 * DigitWeight(x) + DigitWeight(y);
    IntToHexChannel(16 * DigitWeight(x) + DigitWeight(y), frac);
    DigitsOfPair(x, y);
    LowerDigit(x);
    LowerDigit(y);
  }

  /** Joining three or four texts with no separator, behind a prefix. */
  lemma Join3(p: string, a: string, b: string, c: string)
    ensures p + Join([a, b, c], "") == p + a + b + c
  {
    assert [a, b, c][1..] == [b, c] && [b, c][1..] == [c];
    assert Join([c], "") == c;
    assert Join([b, c], "") == b + "" + c;
    assert Join([a, b, c], "") == a + "" + (b + "" + c);
  }

  lemma Join4(p: string, a: string, b: string, c: string, d: string)
    ensures p + Join([a, b, c, d], "") == p + a + b + c + d
  {
    assert [a, b, c, d][1..] == [b, c, d] && [b, c, d][1..] == [c, d] && [c, d][1..] == [d];
    assert Join([d], "") == d;
    assert Join([c, d], "") == c + "" + d;
    assert Join([b, c, d], "") == b + "" + (c + "" + d);
    assert Join([a, b, c, d], "") == a + "" + (b + "" + (c + "" + d));
  }

  /** A hexadecimal digit printed back is its lowercase form. */
  lemma LowerDigit(c: char)
    requires IsHexDigit(c)
    ensures DigitChar(DigitWeight(c)) == LowerChar(c)
  {
  }

  /** The two digits of a pair value are the digits of the pair. */
  lemma DigitsOfPair(x: char, y: char)
    requires IsHexDigit(x) && IsHexDigit(y)
    ensures Hex2(16 * DigitWeight(x) + DigitWeight(y)) == [DigitChar(DigitWeight(x)), DigitChar(DigitWeight(y))]
  {
    var n := 16 * DigitWeight(x) + DigitWeight(y);
    assert n / 16 == DigitWeight(x) && n % 16 == DigitWeight(y);
  }

  /** With four channels the fourth is an alpha: scaled by 255 and rounded
      before it is written as two hexadecimal digits. */
  lemma AlphaChannel(rgb: string, r: nat, g: nat, b: nat, alpha: real, frac: (real, nat) -> string)
    requires r < 256 && g < 256 && b < 256 && 0.0 <= alpha <= 1.0
    requires RgbToColors(rgb) == Ok([Int(r), Int(g), Int(b), Fin(alpha)])
    ensures RgbToHex(rgb, frac) == Ok("#" + Hex2(r) + Hex2(g) + Hex2(b) + Hex2(Round(255.0 * alpha)))
  {
    var cs := [Int(r), Int(g), Int(b), Fin(alpha)];
    RgbToHexOf(rgb, cs, frac);
    FourChannels(r, g, b, alpha, frac);
    Join4("#", Hex2(r), Hex2(g), Hex2(b), Hex2(Round(255.0 * alpha)));
  }

  lemma FourChannels(r: nat, g: nat, b: nat, alpha: real, frac: (real, nat) -> string)
    requires r < 256 && g < 256 && b < 256 && 0.0 <= alpha <= 1.0
    ensures var cs := [Int(r), Int(g), Int(b), Fin(alpha)];
      seq(4, i requires 0 <= i < 4 => ChannelHex(i, cs[i], frac)) ==
      [Hex2(r), Hex2(g), Hex2(b), Hex2(Round(255.0 * alpha))]
  {
    var a := Round(255.0 * alpha);
    assert 0 <= a <= 255;
    IntToHexChannel(r, frac);
    IntToHexChannel(g, frac);
    IntToHexChannel(b, frac);
    assert MathRound(Mul(Int(255), Fin(alpha))) == Int(a);
    IntToHexChannel(a, frac);
  }
}
