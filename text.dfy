/** The string operations of JavaScript that the rendering code relies on:
    trimming, splitting, joining, searching and ASCII case mapping. */
module Text {

  predicate IsDigit(c: char) { '0' <= c <= '9' }

  predicate IsLowerAlpha(c: char) { 'a' <= c <= 'z' }

  /** The characters matched by `\s` and removed by `String.prototype.trim`. */
  predicate IsSpace(c: char) {
    c == ' ' || c == '\t' || c == '\n' || c == '\r' || c == '\U{000B}' || c == '\U{000C}'
    || c == '\U{00A0}' || c == '\U{1680}' || ('\U{2000}' <= c <= '\U{200A}')
    || c == '\U{2028}' || c == '\U{2029}' || c == '\U{202F}' || c == '\U{205F}'
    || c == '\U{3000}' || c == '\U{FEFF}'
  }

  /** The line terminators, which `.` in a regular expression does not match. */
  predicate IsLineTerminator(c: char) {
    c == '\n' || c == '\r' || c == '\U{2028}' || c == '\U{2029}'
  }

  predicate AllSpace(s: string) { forall i :: 0 <= i < |s| ==> IsSpace(s[i]) }

  predicate NoSpace(s: string) { forall i :: 0 <= i < |s| ==> !IsSpace(s[i]) }

  predicate AllDigits(s: string) { forall i :: 0 <= i < |s| ==> IsDigit(s[i]) }

  /** Length of the longest prefix of `s` made of spaces. */
  function SpanSpace(s: string): (n: nat)
    ensures n <= |s| && AllSpace(s[..(n)])
    ensures n < |s| ==> !IsSpace(s[n])
  {
    if s == [] || !IsSpace(s[0]) then 0
    else
      var n := 1 + SpanSpace(s[1..]);
      assert s[..n] == [s[0]] + s[1..][..n - 1];
      n
  }

  /** Length of the longest prefix of `s` with no space. */
  function SpanNonSpace(s: string): (n: nat)
    ensures n <= |s| && NoSpace(s[..(n)])
    ensures n < |s| ==> IsSpace(s[n])
  {
    if s == [] || IsSpace(s[0]) then 0
    else
      var n := 1 + SpanNonSpace(s[1..]);
      assert s[..n] == [s[0]] + s[1..][..n - 1];
      n
  }

  /** Length of the longest prefix of `s` made of decimal digits. */
  function SpanDigits(s: string): (n: nat)
    ensures n <= |s| && AllDigits(s[..(n)])
    ensures n < |s| ==> !IsDigit(s[n])
  {
    if s == [] || !IsDigit(s[0]) then 0
    else
      var n := 1 + SpanDigits(s[1..]);
      assert s[..n] == [s[0]] + s[1..][..n - 1];
      n
  }

  /** Length of the longest suffix of `s` made of spaces. */
  function SpanSpaceEnd(s: string): (n: nat)
    ensures n <= |s| && AllSpace(s[|s| - n..])
    ensures n < |s| ==> !IsSpace(s[|s| - n - 1])
  {
    if s == [] || !IsSpace(s[|s| - 1]) then 0
    else
      var t := s[..|s| - 1];
      var k := SpanSpaceEnd(t);
      assert forall i :: |t| - k <= i < |t| ==> s[i] == t[i];
      1 + k
  }

  function TrimStart(s: string): string { s[SpanSpace(s)..] }

  function TrimEnd(s: string): string { s[..|s| - SpanSpaceEnd(s)] }

  /** Length of the longest prefix of `s` without `)`. */
  function SpanNotClose(s: string): (n: nat)
    ensures n <= |s|
    ensures forall i :: 0 <= i < n ==> s[i] != ')'
    ensures n < |s| ==> s[n] == ')'
  {
    if s == [] || s[0] == ')' then 0 else 1 + SpanNotClose(s[1..])
  }

  /** String.prototype.trim. */
  function Trim(s: string): (r: string)
    ensures |r| <= |s|
    ensures r == [] || (!IsSpace(r[0]) && !IsSpace(r[|r| - 1]))
  {
    TrimEnd(TrimStart(s))
  }

  predicate StartsWith(s: string, p: string) { |p| <= |s| && s[..|p|] == p }

  predicate EndsWith(s: string, p: string) { |p| <= |s| && s[|s| - |p|..] == p }

  /** String.prototype.includes. */
  predicate Contains(s: string, t: string)
    decreases |s|
  {
    StartsWith(s, t) || (s != [] && Contains(s[1..], t))
  }

  /** String.prototype.split with a one-character separator: always at least one piece. */
  function Split(s: string, sep: char): (r: seq<string>)
    ensures |r| >= 1
    ensures forall i :: 0 <= i < |r| ==> sep !in r[i]
  {
    if s == [] then [""]
    else if s[0] == sep then [""] + Split(s[1..], sep)
    else
      var t := Split(s[1..], sep);
      [[s[0]] + t[0]] + t[1..]
  }

  /** String.prototype.split with the pattern `/\s+/`: pieces between maximal runs of spaces. */
  function SplitSpaces(s: string): (r: seq<string>)
    ensures |r| >= 1
    decreases |s|
  {
    var k := SpanNonSpace(s);
    if k == |s| then [s]
    else [s[..k]] + SplitSpaces(s[k + SpanSpace(s[k..])..])
  }

  /** Array.prototype.join. */
  function Join(xs: seq<string>, sep: string): string {
    if xs == [] then ""
    else if |xs| == 1 then xs[0]
    else xs[0] + sep + Join(xs[1..], sep)
  }

  function LowerChar(c: char): char {
    if 'A' <= c <= 'Z' then (c as int + 32) as char else c
  }

  /** String.prototype.toLowerCase on ASCII letters. */
  function ToLower(s: string): (r: string)
    ensures |r| == |s|
    ensures forall i :: 0 <= i < |s| ==> r[i] == LowerChar(s[i])
  {
    if s == [] then [] else [LowerChar(s[0])] + ToLower(s[1..])
  }

  lemma ToLowerUnchanged(s: string)
    requires forall i :: 0 <= i < |s| ==> !('A' <= s[i] <= 'Z')
    ensures ToLower(s) == s
  {
    assert forall i :: 0 <= i < |s| ==> ToLower(s)[i] == s[i];
  }

  /** `s.replace(/<c>/g, '')` for a set of characters: every occurrence removed. */
  function RemoveChars(s: string, cs: set<char>): (r: string)
    ensures forall i :: 0 <= i < |r| ==> r[i] !in cs
    ensures |r| <= |s|
  {
    if s == [] then []
    else if s[0] in cs then RemoveChars(s[1..], cs)
    else [s[0]] + RemoveChars(s[1..], cs)
  }

  lemma {:induction false} SplitNoSeparator(s: string, sep: char)
    requires sep !in s
    ensures Split(s, sep) == [s]
  {
    if s != [] {
      SplitNoSeparator(s[1..], sep);
      assert [s[0]] + s[1..] == s;
    }
  }

  /** Splitting at the first separator: the piece before it, then the split of the rest. */
  lemma {:induction false} SplitAtFirst(a: string, b: string, sep: char)
    requires sep !in a
    ensures Split(a + [sep] + b, sep) == [a] + Split(b, sep)
  {
    if a == [] {
      assert a + [sep] + b == [sep] + b;
      assert ([sep] + b)[1..] == b;
    } else {
      var s := a + [sep] + b;
      assert s[0] == a[0] && s[1..] == a[1..] + [sep] + b;
      SplitAtFirst(a[1..], b, sep);
      assert [a[0]] + a[1..] == a;
    }
  }

  /** Splitting at one separator splits the two sides separately. */
  lemma {:induction false} SplitConcat(a: string, b: string, sep: char)
    ensures Split(a + [sep] + b, sep) == Split(a, sep) + Split(b, sep)
    decreases |a|
  {
    if a == [] {
      assert a + [sep] + b == [sep] + b;
      assert ([sep] + b)[1..] == b;
    } else {
      var s := a + [sep] + b;
      assert s[0] == a[0] && s[1..] == a[1..] + [sep] + b;
      SplitConcat(a[1..], b, sep);
    }
  }

  /** Concatenating in two steps or in one gives the same text. */
  lemma ConcatAssoc(a: string, b: string, c: string)
    ensures (a + b) + c == a + (b + c)
  {
  }

  lemma {:induction false} SpanNonSpaceConcat(w: string, u: string)
    requires NoSpace(w)
    requires u == [] || IsSpace(u[0])
    ensures SpanNonSpace(w + u) == |w|
  {
    if w == [] {
      assert w + u == u;
    } else {
      assert (w + u)[1..] == w[1..] + u;
      SpanNonSpaceConcat(w[1..], u);
    }
  }

  lemma {:induction false} SpanSpaceConcat(sp: string, u: string)
    requires AllSpace(sp)
    requires u == [] || !IsSpace(u[0])
    ensures SpanSpace(sp + u) == |sp|
  {
    if sp == [] {
      assert sp + u == u;
    } else {
      assert (sp + u)[1..] == sp[1..] + u;
      SpanSpaceConcat(sp[1..], u);
    }
  }

  /** A text without spaces at either end is its own trim. */
  lemma TrimUnchanged(s: string)
    requires s == [] || (!IsSpace(s[0]) && !IsSpace(s[|s| - 1]))
    ensures Trim(s) == s
  {
    assert SpanSpace(s) == 0;
    assert s[0..] == s;
    assert SpanSpaceEnd(s) == 0;
    assert s[..|s|] == s;
  }

  /** A text containing `t` contains its first character. */
  lemma {:induction false} ContainsHead(s: string, t: string)
    requires |t| > 0 && Contains(s, t)
    ensures t[0] in s
    decreases |s|
  {
    if StartsWith(s, t) {
      assert s[0] == t[0];
    } else {
      ContainsHead(s[1..], t);
      assert t[0] in s[1..];
    }
  }

  /** The number of occurrences of `c` in `s`. */
  function Count(s: string, c: char): nat {
    if s == [] then 0 else (if s[0] == c then 1 else 0) + Count(s[1..], c)
  }

  /** Splitting gives one more piece than there are separators. */
  lemma {:induction false} SplitLength(s: string, sep: char)
    ensures |Split(s, sep)| == Count(s, sep) + 1
  {
    if s != [] { SplitLength(s[1..], sep); }
  }

  /** One space in front of a text without spaces at either end trims away. */
  lemma TrimLeadingSpace(t: string)
    requires t != [] && !IsSpace(t[0]) && !IsSpace(t[|t| - 1])
    ensures Trim(" " + t) == t
  {
    var s := " " + t;
    assert s[1..] == t;
    assert SpanSpace(s) == 1;
    assert TrimStart(s) == t;
    TrimUnchanged(t);
  }

  /** The pieces of `p + xs.join(", ")` split at commas: `p + xs[0]`, then each
      later element behind its space. */
  lemma {:induction false} SplitCommaJoin(p: string, xs: seq<string>)
    requires |xs| >= 1 && ',' !in p
    requires forall i :: 0 <= i < |xs| ==> ',' !in xs[i]
    ensures Split(p + Join(xs, ", "), ',') ==
      [p + xs[0]] + seq(|xs| - 1, i requires 0 <= i < |xs| - 1 => " " + xs[i + 1])
    decreases |xs|
  {
    if |xs| == 1 {
      SplitNoSeparator(p + xs[0], ',');
    } else {
      var rest := Join(xs[1..], ", ");
      assert p + Join(xs, ", ") == (p + xs[0]) + [','] + (" " + rest);
      SplitAtFirst(p + xs[0], " " + rest, ',');
      SplitCommaJoin(" ", xs[1..]);
    }
  }
}
