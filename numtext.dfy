/** Converting between text and numbers as JavaScript does: `parseFloat`,
    `parseInt` (decimal, and hexadecimal after a `0x` prefix or with radix 16),
    `Number(text)`, and `Number.prototype.toString` for integers. */
module NumText {
  import opened Js
  import opened Text

  /** The value of a digit in radix 36 (`0`-`9`, `a`-`z`, `A`-`Z`); 36 for any other character. */
  function DigitWeight(c: char): nat {
    if '0' <= c <= '9' then c as int - '0' as int
    else if 'a' <= c <= 'z' then c as int - 'a' as int + 10
    else if 'A' <= c <= 'Z' then c as int - 'A' as int + 10
    else 36
  }

  predicate IsRadixDigit(c: char, radix: nat) { DigitWeight(c) < radix }

  predicate AllRadixDigits(s: string, radix: nat) {
    forall i :: 0 <= i < |s| ==> IsRadixDigit(s[i], radix)
  }

  /** Length of the longest prefix of `s` made of digits of the radix. */
  function SpanRadix(s: string, radix: nat): (n: nat)
    ensures n <= |s| && AllRadixDigits(s[..(n)], radix)
    ensures n < |s| ==> !IsRadixDigit(s[n], radix)
  {
    if s == [] || !IsRadixDigit(s[0], radix) then 0
    else
      var n := 1 + SpanRadix(s[1..], radix);
      assert s[..n] == [s[0]] + s[1..][..n - 1];
      n
  }

  /** The value of a run of digits, most significant first. */
  function RadixValue(d: string, radix: nat): nat
    decreases |d|
  {
    if d == [] then 0
    else RadixValue(d[..|d| - 1], radix) * radix + DigitWeight(d[|d| - 1])
  }

  /** The value of the digits after a decimal point. */
  function FracValue(d: string): real
    requires AllDigits(d)
  {
    if d == [] then 0.0 else (DigitWeight(d[0]) as real + FracValue(d[1..])) / 10.0
  }

  function Pow10(e: nat): (r: real)
    ensures r >= 1.0
  {
    if e == 0 then 1.0 else 10.0 * Pow10(e - 1)
  }

  function Scale(x: real, e: int): real {
    if e >= 0 then x * Pow10(e) else x / Pow10(-e)
  }

  /** A numeral recognised at the front of a text: its length (0 when none) and value. */
  datatype Numeral = Numeral(len: nat, value: Num)

  /** An exponent part `e`/`E`, optional sign, at least one digit; length 0 when absent. */
  function ExponentPrefix(u: string): (r: (nat, int))
    ensures r.0 <= |u|
  {
    if u == [] || (u[0] != 'e' && u[0] != 'E') then (0, 0)
    else
      var signed := |u| > 1 && (u[1] == '+' || u[1] == '-');
      var rest := if signed then u[2..] else u[1..];
      var k := SpanDigits(rest);
      if k == 0 then (0, 0)
      else
        var e: int := RadixValue(rest[..k], 10);
        ((if signed then 2 else 1) + k, if signed && u[1] == '-' then -e else e)
  }

  /** The longest prefix of `u` that is an unsigned decimal literal: `Infinity`,
      digits with an optional fraction, or `.` followed by digits, then an
      optional exponent. */
  function UnsignedDecimalPrefix(u: string): (n: Numeral)
    ensures n.len <= |u|
    ensures n.len == 0 <==> n.value == NaN
  {
    if StartsWith(u, "Infinity") then Numeral(8, PosInf)
    else
      var ip := SpanDigits(u);
      var dot := ip < |u| && u[ip] == '.';
      var fp := if dot then SpanDigits(u[ip + 1..]) else 0;
      if ip == 0 && fp == 0 then Numeral(0, NaN)
      else
        var mantLen := if dot then ip + 1 + fp else ip;
        var mant := RadixValue(u[..ip], 10) as real
          + (if dot then FracValue(u[ip + 1..][..fp]) else 0.0);
        var e := ExponentPrefix(u[mantLen..]);
        Numeral(mantLen + e.0, Fin(Scale(mant, e.1)))
  }

  /** A leading `+` or `-`: whether the value is negated, and the text after it. */
  function SignPrefix(t: string): (r: (bool, string))
    ensures |r.1| <= |t|
  {
    if t != [] && (t[0] == '-' || t[0] == '+') then (t[0] == '-', t[1..]) else (false, t)
  }

  /** `parseFloat(s)`: leading spaces skipped, then the longest decimal literal; NaN when there is none. */
  function ParseFloat(s: string): Num {
    var (neg, u) := SignPrefix(TrimStart(s));
    var n := UnsignedDecimalPrefix(u);
    if neg then Neg(n.value) else n.value
  }

  /** The value of an integer prefix in the radix, after an optional sign. */
  function IntegerPrefix(neg: bool, w: string, radix: nat): Num {
    var k := SpanRadix(w, radix);
    if k == 0 then NaN
    else
      var m: int := RadixValue(w[..k], radix);
      Int(if neg then -m else m)
  }

  predicate HasHexPrefix(u: string) { StartsWith(u, "0x") || StartsWith(u, "0X") }

  /** `parseInt(s)` with no radix: decimal, or hexadecimal after `0x`. */
  function ParseInt(s: string): Num {
    var (neg, u) := SignPrefix(TrimStart(s));
    if HasHexPrefix(u) then IntegerPrefix(neg, u[2..], 16) else IntegerPrefix(neg, u, 10)
  }

  /** `parseInt(s, 16)`: an optional `0x` prefix is skipped. */
  function ParseIntHex(s: string): Num {
    var (neg, u) := SignPrefix(TrimStart(s));
    IntegerPrefix(neg, if HasHexPrefix(u) then u[2..] else u, 16)
  }

  /** The radix a `0x`, `0o` or `0b` prefix selects, by its letter; 0 for any other letter. */
  function PrefixRadix(c: char): nat {
    if c == 'x' || c == 'X' then 16 else if c == 'o' || c == 'O' then 8 else if c == 'b' || c == 'B' then 2 else 0
  }

  /** `Number(s)` on a string: the whole trimmed text must be a numeral; empty text is 0. */
  function ToNumber(s: string): Num {
    var t := Trim(s);
    if t == [] then Fin(0.0)
    else if |t| > 2 && t[0] == '0' && PrefixRadix(t[1]) != 0 then
      var radix := PrefixRadix(t[1]);
      if AllRadixDigits(t[2..], radix) then Int(RadixValue(t[2..], radix)) else NaN
    else
      var (neg, u) := SignPrefix(t);
      var n := UnsignedDecimalPrefix(u);
      if n.len == |u| && n.len > 0 then (if neg then Neg(n.value) else n.value) else NaN
  }

  function DigitChar(d: nat): (c: char)
    requires d < 36
    ensures DigitWeight(c) == d
  {
    if d < 10 then ('0' as int + d) as char else ('a' as int + d - 10) as char
  }

  /** The digits of a natural number in the radix, lowercase, without leading zeros. */
  function NatToRadix(n: nat, radix: nat): (s: string)
    requires 2 <= radix <= 36
    ensures |s| >= 1 && AllRadixDigits(s, radix)
    decreases n
  {
    if n < radix then [DigitChar(n)]
    else
      DivStep(n, radix);
      var s := NatToRadix(n / radix, radix) + [DigitChar(n % radix)];
      AppendDigit(NatToRadix(n / radix, radix), DigitChar(n % radix), radix);
      s
  }

  lemma AppendDigit(s: string, c: char, radix: nat)
    requires AllRadixDigits(s, radix) && IsRadixDigit(c, radix)
    ensures AllRadixDigits(s + [c], radix)
  {
    assert forall i :: 0 <= i < |s| ==> (s + [c])[i] == s[i];
  }

  /** `String(i)` for an integer. */
  function IntToString(i: int): string {
    if i < 0 then "-" + NatToRadix(-i, 10) else NatToRadix(i, 10)
  }

  /** Whether a number prints without fractional digits: an integer, NaN or an infinity. */
  predicate Integral(n: Num) { n.Fin? ==> n.v == Floor(n.v) as real }

  /** `Number.prototype.toString(radix)`.  The digits of a finite value that is
      not an integer are given by `frac`: that algorithm is not modelled. */
  function NumToString(n: Num, radix: nat, frac: (real, nat) -> string): string
    requires 2 <= radix <= 36
  {
    match n
    case NaN => "NaN"
    case PosInf => "Infinity"
    case NegInf => "-Infinity"
    case Fin(x) =>
      if x != Floor(x) as real then frac(x, radix)
      else if x < 0.0 then "-" + NatToRadix(-Floor(x), radix)
      else NatToRadix(Floor(x), radix)
  }

  /** An integer prints in decimal as `String(i)` does. */
  lemma IntegerText(i: int, frac: (real, nat) -> string)
    ensures NumToString(Int(i), 10, frac) == IntToString(i)
  {
    assert Floor(i as real) == i;
  }

  /** Reading back the digits of a natural number gives the number. */
  lemma {:induction false} RadixRoundTrip(n: nat, radix: nat)
    requires 2 <= radix <= 36
    ensures RadixValue(NatToRadix(n, radix), radix) == n
    decreases n
  {
    if n >= radix {
      var q, r := n / radix, n % radix;
      DivStep(n, radix);
      var s := NatToRadix(n, radix);
      assert s == NatToRadix(q, radix) + [DigitChar(r)];
      RadixRoundTrip(q, radix);
      assert s[..|s| - 1] == NatToRadix(q, radix);
      assert DigitWeight(s[|s| - 1]) == r;
      assert RadixValue(s, radix) == q * radix + r;
    }
  }

  lemma DivStep(n: nat, radix: nat)
    requires 2 <= radix <= n
    ensures n == (n / radix) * radix + n % radix && 0 < n / radix < n && n % radix < radix
  {
  }

  /** `Number(String(i)) == i` for every integer. */
  lemma IntegerTextRoundTrip(i: int)
    ensures ToNumber(IntToString(i)) == Int(i)
  {
    var m: nat := if i < 0 then -i else i;
    var d := NatToRadix(m, 10);
    DecimalDigits(m);
    RadixRoundTrip(m, 10);
    if i < 0 {
      NegatedNumber(d);
    } else {
      DigitsNumber(d);
    }
  }

  lemma DecimalDigits(m: nat)
    ensures AllDigits(NatToRadix(m, 10))
  {
    var d := NatToRadix(m, 10);
    forall k | 0 <= k < |d| ensures IsDigit(d[k]) { assert IsRadixDigit(d[k], 10); }
  }

  /** `Number` of a run of decimal digits is its value. */
  lemma DigitsNumber(d: string)
    requires |d| > 0 && AllDigits(d)
    ensures ToNumber(d) == Fin(RadixValue(d, 10) as real)
  {
    PlainDigits(d);
    DigitsPrefix(d);
  }

  /** A run of decimal digits has no spaces to trim, no radix prefix and no sign. */
  lemma PlainDigits(d: string)
    requires |d| > 0 && AllDigits(d)
    ensures Trim(d) == d && SignPrefix(d) == (false, d)
    ensures |d| > 2 ==> PrefixRadix(d[1]) == 0
  {
    TrimUnchanged(d);
    if |d| > 2 { assert IsDigit(d[1]); }
  }

  /** `Number` of a minus sign and a run of decimal digits is the negated value. */
  lemma NegatedNumber(d: string)
    requires |d| > 0 && AllDigits(d)
    ensures ToNumber("-" + d) == Fin(-(RadixValue(d, 10) as real))
  {
    SignedDigits(d);
    DigitsPrefix(d);
  }

  /** A minus sign and a run of decimal digits has no spaces to trim and no
      radix prefix; the sign negates the digits. */
  lemma SignedDigits(d: string)
    requires |d| > 0 && AllDigits(d)
    ensures Trim("-" + d) == "-" + d && SignPrefix("-" + d) == (true, d)
    ensures ("-" + d)[0] != '0'
  {
    var s := "-" + d;
    assert s[0] == '-' && s[1..] == d;
    TrimUnchanged(s);
  }

  lemma {:induction false} SpanDigitsAll(d: string)
    requires AllDigits(d)
    ensures SpanDigits(d) == |d|
  {
    if d != [] { SpanDigitsAll(d[1..]); }
  }

  /** A run of decimal digits is a whole decimal literal. */
  lemma DigitsPrefix(d: string)
    requires |d| > 0 && AllDigits(d)
    ensures UnsignedDecimalPrefix(d) == Numeral(|d|, Fin(RadixValue(d, 10) as real))
  {
    DigitsThenTextShape(d, []);
    assert d + [] == d && d[..|d|] == d;
    NoExponent([]);
    IntegerNumeral(d, |d|);
  }

  /** parseFloat of a run of decimal digits is its value. */
  lemma DigitsValue(d: string)
    requires |d| > 0 && AllDigits(d)
    ensures ParseFloat(d) == Fin(RadixValue(d, 10) as real)
  {
    assert SpanSpace(d) == 0;
    assert TrimStart(d) == d;
    assert SignPrefix(d) == (false, d);
    DigitsPrefix(d);
  }

  /** The digit runs `0`, `50` and `100` and their values. */
  lemma ZeroDigits()
    ensures AllDigits("0") && RadixValue("0", 10) == 0
  {
    assert "0"[0] == '0' && "0"[..0] == "";
  }

  lemma FiftyDigits()
    ensures AllDigits("50") && RadixValue("50", 10) == 50
  {
    var d := "50";
    assert d[0] == '5' && d[1] == '0';
    assert d[..1] == "5" && "5"[..0] == "";
  }

  lemma HundredDigits()
    ensures AllDigits("100") && RadixValue("100", 10) == 100
  {
    var d := "100";
    assert d[0] == '1' && d[1] == '0' && d[2] == '0';
    assert d[..2] == "10" && "10"[..1] == "1" && "1"[..0] == "";
  }

  /** parseFloat of a minus sign and a run of decimal digits is the negated value. */
  lemma NegatedDigitsValue(d: string)
    requires |d| > 0 && AllDigits(d)
    ensures ParseFloat("-" + d) == Fin(-(RadixValue(d, 10) as real))
  {
    var s := "-" + d;
    assert SpanSpace(s) == 0;
    assert TrimStart(s) == s;
    assert s[1..] == d;
    assert SignPrefix(s) == (true, d);
    DigitsPrefix(d);
  }

  /** Two digits of the radix read as `radix * first + second`. */
  lemma TwoDigits(x: char, y: char, radix: nat)
    requires IsRadixDigit(x, radix) && IsRadixDigit(y, radix)
    ensures IntegerPrefix(false, [x, y], radix) == Int(radix * DigitWeight(x) + DigitWeight(y))
  {
    var s := [x, y];
    assert SpanRadix([y], radix) == 1 by { assert [y][1..] == []; }
    assert SpanRadix(s, radix) == 2 by { assert s[1..] == [y]; }
    assert s[..2] == s;
    assert RadixValue([x], radix) == DigitWeight(x) by { assert [x][..0] == []; }
    assert s[..1] == [x];
  }

  /** `parseInt(_, 16)` of two hexadecimal digits. */
  lemma HexPair(x: char, y: char)
    requires IsRadixDigit(x, 16) && IsRadixDigit(y, 16)
    ensures ParseIntHex([x, y]) == Int(16 * DigitWeight(x) + DigitWeight(y))
  {
    var s := [x, y];
    assert !IsSpace(x);
    assert SpanSpace(s) == 0;
    assert TrimStart(s) == s;
    assert SignPrefix(s) == (false, s);
    assert y != 'x' && y != 'X';
    assert s[..2] == s;
    assert s != "0x" && s != "0X";
    TwoDigits(x, y, 16);
  }

  /** A run of decimal digits followed by text that cannot continue a numeral
      (such as a unit or `%`) is read by parseFloat and parseInt as the digits' value. */
  lemma DigitsThenText(d: string, u: string)
    requires |d| > 0 && AllDigits(d)
    requires u == [] || (!IsDigit(u[0]) && u[0] != '.' && u[0] != 'e' && u[0] != 'E' && u[0] != 'x' && u[0] != 'X')
    ensures ParseFloat(d + u) == Fin(RadixValue(d, 10) as real)
    ensures ParseInt(d + u) == Fin(RadixValue(d, 10) as real)
  {
    UnsignedStart(d + u);
    DecimalThenText(d, u);
    IntegerThenText(d, u);
  }

  lemma UnsignedStart(s: string)
    requires s != [] && IsDigit(s[0])
    ensures TrimStart(s) == s && SignPrefix(s) == (false, s)
  {
    assert !IsSpace(s[0]);
    assert SpanSpace(s) == 0;
  }

  lemma DecimalThenText(d: string, u: string)
    requires |d| > 0 && AllDigits(d)
    requires u == [] || (!IsDigit(u[0]) && u[0] != '.' && u[0] != 'e' && u[0] != 'E')
    ensures UnsignedDecimalPrefix(d + u).value == Fin(RadixValue(d, 10) as real)
  {
    DigitsThenTextShape(d, u);
    NoExponent(u);
    IntegerNumeral(d + u, |d|);
  }

  /** Where the digits of `d + u` end and what follows them. */
  lemma DigitsThenTextShape(d: string, u: string)
    requires |d| > 0 && AllDigits(d)
    requires u == [] || (!IsDigit(u[0]) && u[0] != '.')
    ensures var s := d + u;
      !StartsWith(s, "Infinity") && SpanDigits(s) == |d| && s[..|d|] == d && s[|d|..] == u &&
      !(|d| < |s| && s[|d|] == '.')
  {
    var s := d + u;
    assert !StartsWith(s, "Infinity") by { assert s[0] != 'I'; }
    SpanDigitsConcat(d, u);
    assert s[..|d|] == d && s[|d|..] == u;
    if |d| < |s| { assert s[|d|] == u[0]; }
  }

  /** A run of digits with no fraction and no exponent after it is read as
      the digits' value. */
  lemma IntegerNumeral(s: string, ip: nat)
    requires !StartsWith(s, "Infinity") && SpanDigits(s) == ip > 0
    requires !(ip < |s| && s[ip] == '.') && ExponentPrefix(s[ip..]) == (0, 0)
    ensures UnsignedDecimalPrefix(s) == Numeral(ip, Fin(RadixValue(s[..ip], 10) as real))
  {
  }

  lemma NoExponent(u: string)
    requires u == [] || (u[0] != 'e' && u[0] != 'E')
    ensures ExponentPrefix(u) == (0, 0)
  {
  }

  lemma IntegerThenText(d: string, u: string)
    requires |d| > 0 && AllDigits(d)
    requires u == [] || (!IsDigit(u[0]) && u[0] != 'x' && u[0] != 'X')
    ensures !HasHexPrefix(d + u)
    ensures IntegerPrefix(false, d + u, 10) == Fin(RadixValue(d, 10) as real)
  {
    NoHexPrefix(d, u);
    SpanRadixDigits(d, u);
    assert (d + u)[..|d|] == d;
  }

  /** Digits followed by neither a digit nor an `x` do not start with `0x`. */
  lemma NoHexPrefix(d: string, u: string)
    requires |d| > 0 && AllDigits(d)
    requires u == [] || (!IsDigit(u[0]) && u[0] != 'x' && u[0] != 'X')
    ensures !HasHexPrefix(d + u)
  {
    var s := d + u;
    if |d| >= 2 { assert IsDigit(s[1]); } else if u != [] { assert s[1] == u[0]; }
  }

  lemma {:induction false} SpanDigitsConcat(d: string, u: string)
    requires AllDigits(d)
    requires u == [] || !IsDigit(u[0])
    ensures SpanDigits(d + u) == |d|
  {
    if d == [] {
      assert d + u == u;
    } else {
      assert (d + u)[1..] == d[1..] + u;
      SpanDigitsConcat(d[1..], u);
    }
  }

  lemma {:induction false} SpanRadixDigits(d: string, u: string)
    requires AllDigits(d)
    requires u == [] || !IsDigit(u[0])
    ensures SpanRadix(d + u, 10) == |d|
  {
    if d == [] {
      assert d + u == u;
      if u != [] { assert !IsRadixDigit(u[0], 10); }
    } else {
      assert (d + u)[1..] == d[1..] + u;
      assert IsRadixDigit(d[0], 10);
      SpanRadixDigits(d[1..], u);
    }
  }
}
