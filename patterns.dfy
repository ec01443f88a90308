/** The three regular expressions the renderers use to pull the argument list
    out of a CSS function call such as `linear-gradient(...)`, written as
    recognisers with the leftmost-match semantics of JavaScript regular
    expressions. */
module Patterns {
  import opened Text
  import opened Wrappers

  /** How the group between the parentheses is matched. */
  datatype GroupKind =
    | NoClose   // `\(([^)]+)\)`: one or more characters other than `)`
    | Lazy      // `\((.*?)\)`: the shortest run up to a `)`, no line terminator in it
    | Greedy    // `\((.*)\)`: the longest run up to a `)`, no line terminator in it

  predicate NoLineTerminator(s: string) {
    forall i :: 0 <= i < |s| ==> !IsLineTerminator(s[i])
  }

  /** Length of the longest prefix of `s` without a line terminator. */
  function SpanLine(s: string): (n: nat)
    ensures n <= |s| && NoLineTerminator(s[..(n)])
    ensures n < |s| ==> IsLineTerminator(s[n])
  {
    if s == [] || IsLineTerminator(s[0]) then 0
    else
      var k := SpanLine(s[1..]);
      assert s[..k + 1] == [s[0]] + s[1..][..k];
      k + 1
  }

  /** The largest `j < |r|` with `r[j] == ')'`, if any. */
  function LastClose(r: string): (j: Option<nat>)
    ensures j.Some? ==> j.value < |r| && r[j.value] == ')'
    ensures j.Some? ==> forall k :: j.value < k < |r| ==> r[k] != ')'
    ensures j.None? ==> ')' !in r
    decreases |r|
  {
    if r == [] then None
    else if r[|r| - 1] == ')' then Some(|r| - 1)
    else
      var j := LastClose(r[..|r| - 1]);
      assert j.None? ==> forall k :: 0 <= k < |r| - 1 ==> r[k] == r[..|r| - 1][k];
      j
  }

  /** The group matched right after `head(`, in the text `t` that follows it. */
  function GroupAfter(t: string, kind: GroupKind): (g: Option<string>)
    ensures g.Some? ==> StartsWith(t, g.value + ")")
    ensures g.Some? && kind != Greedy ==> ')' !in g.value
    ensures g.Some? && kind != NoClose ==> NoLineTerminator(g.value)
    ensures g.Some? && kind == NoClose ==> g.value != []
  {
    match kind
    case NoClose =>
      var n := SpanNotClose(t);
      if 1 <= n < |t| then
        assert t[..n + 1] == t[..n] + ")";
        Some(t[..n])
      else None
    case Lazy =>
      var n := SpanNotClose(t);
      if n < |t| && NoLineTerminator(t[..n]) then
        assert t[..n + 1] == t[..n] + ")";
        Some(t[..n])
      else None
    case Greedy =>
      var line := t[..SpanLine(t)];
      var j := LastClose(line);
      if j.Some? then
        assert t[..j.value + 1] == line[..j.value] + ")";
        assert line[..j.value] == t[..j.value];
        Some(line[..j.value])
      else None
  }

  /** `s.match(/<head>\((...)\)/)[1]`: the group of the leftmost match at
      position `p` or later. */
  function FindGroupFrom(s: string, head: string, kind: GroupKind, p: nat): (g: Option<string>)
    requires p <= |s|
    ensures g.Some? ==> exists q :: p <= q <= |s| && StartsWith(s[q..], head + "(" + g.value + ")")
    decreases |s| - p
  {
    var t := s[p..];
    if StartsWith(t, head + "(") && GroupAfter(t[|head| + 1..], kind).Some? then
      var g := GroupAfter(t[|head| + 1..], kind);
      assert t[..|head| + 1] == head + "(";
      assert t[|head| + 1..][..|g.value| + 1] == g.value + ")";
      assert t[..|head| + 1 + |g.value| + 1] == head + "(" + g.value + ")";
      g
    else if p == |s| then None
    else FindGroupFrom(s, head, kind, p + 1)
  }

  function FindGroup(s: string, head: string, kind: GroupKind): (g: Option<string>)
    ensures g.Some? ==> exists q :: 0 <= q <= |s| && StartsWith(s[q..], head + "(" + g.value + ")")
  {
    FindGroupFrom(s, head, kind, 0)
  }

  /** Without the head in the text there is no match. */
  lemma {:induction false} NoHeadNoGroup(s: string, head: string, kind: GroupKind, p: nat)
    requires p <= |s|
    requires forall q :: p <= q <= |s| ==> !StartsWith(s[q..], head + "(")
    ensures FindGroupFrom(s, head, kind, p) == None
    decreases |s| - p
  {
    if p < |s| { NoHeadNoGroup(s, head, kind, p + 1); }
  }

  /** A call written on its own, `head(args)`, gives back `args` whatever the
      kind, provided the arguments hold no `)` and no line terminator (and are
      not empty for `NoClose`). */
  lemma WholeCall(head: string, args: string, kind: GroupKind)
    requires ')' !in args && NoLineTerminator(args) && args != []
    ensures FindGroup(head + "(" + args + ")", head, kind) == Some(args)
  {
    var s := head + "(" + args + ")";
    assert s[0..] == s;
    var t := s[|head| + 1..];
    assert t == args + ")";
    assert s[..|head| + 1] == head + "(";
    match kind
    case NoClose =>
      SpanNotCloseAt(args);
    case Lazy =>
      SpanNotCloseAt(args);
      assert t[..|args|] == args;
    case Greedy =>
      SpanLineAll(t);
      assert t[..|t|] == t;
      assert t[..|t| - 1] == args;
  }

  lemma {:induction false} SpanNotCloseAt(args: string)
    requires ')' !in args
    ensures SpanNotClose(args + ")") == |args|
    decreases |args|
  {
    if args != [] {
      assert (args + ")")[1..] == args[1..] + ")";
      SpanNotCloseAt(args[1..]);
    }
  }

  lemma {:induction false} SpanLineAll(t: string)
    requires NoLineTerminator(t)
    ensures SpanLine(t) == |t|
    decreases |t|
  {
    if t != [] { SpanLineAll(t[1..]); }
  }
}
