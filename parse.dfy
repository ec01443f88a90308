/** Splitting `background-position` and `background-size` values into their
    two axes, with the defaults CSS gives a missing axis. */
module Parse {
  import opened Text
  import opened Wrappers

  /** Element `i` of a destructured array: `None` past its end (`undefined`). */
  function Nth(xs: seq<string>, i: nat): (r: Option<string>)
    ensures r.Some? <==> i < |xs|
  {
    if i < |xs| then Some(xs[i]) else None
  }

  /** `x || d` on an optional string: an absent or empty string gives `d`. */
  function OrDefault(x: Option<string>, d: string): (r: string)
  {
    if x.Some? && x.value != "" then x.value else d
  }

  /** `value?.split(' ') || []`: a missing value splits into nothing. */
  function Parts(value: Option<string>): seq<string> {
    if value.Some? then Split(value.value, ' ') else []
  }

  /** `parsePosition`: the first two space-separated parts, `0%` standing in
      for a missing or empty one. */
  function ParsePosition(position: Option<string>): (r: (string, string))
    ensures r.0 != "" && r.1 != ""
  {
    var parts := Parts(position);
    (OrDefault(Nth(parts, 0), "0%"), OrDefault(Nth(parts, 1), "0%"))
  }

  /** `parseSize`: `cover` and `contain` apply to both axes; otherwise the
      first two space-separated parts, `auto` standing in for a missing or
      empty one. */
  function ParseSize(size: Option<string>): (r: (string, string))
    ensures r.0 != "" && r.1 != ""
  {
    if size == Some("cover") || size == Some("contain") then (size.value, size.value)
    else
      var parts := Parts(size);
      (OrDefault(Nth(parts, 0), "auto"), OrDefault(Nth(parts, 1), "auto"))
  }

  /** A missing or empty position is the top-left corner. */
  lemma EmptyPosition()
    ensures ParsePosition(None) == ParsePosition(Some("")) == ("0%", "0%")
  {
    assert Split("", ' ') == [""];
  }

  /** A missing or empty size keeps the image's own size on both axes. */
  lemma EmptySize()
    ensures ParseSize(None) == ParseSize(Some("")) == ("auto", "auto")
  {
    assert Split("", ' ') == [""];
  }

  /** Two words separated by one space are read back as the two axes, and
      whatever follows a further space is ignored. */
  lemma TwoWords(x: string, y: string, rest: string)
    requires x != "" && y != "" && ' ' !in x && ' ' !in y
    ensures ParsePosition(Some(x + " " + y)) == (x, y)
    ensures ParsePosition(Some(x + " " + y + " " + rest)) == (x, y)
    ensures ParseSize(Some(x + " " + y)) == (x, y)
    ensures ParseSize(Some(x + " " + y + " " + rest)) == (x, y)
  {
    SplitWords(x, y, rest);
    assert (x + " " + y)[|x|] == ' ' && (x + " " + y + " " + rest)[|x|] == ' ';
    assert ' ' !in "cover" && ' ' !in "contain";
  }

  lemma SplitWords(x: string, y: string, rest: string)
    requires ' ' !in x && ' ' !in y
    ensures Split(x + " " + y, ' ') == [x, y]
    ensures Split(x + " " + y + " " + rest, ' ') == [x, y] + Split(rest, ' ')
  {
    SplitNoSeparator(y, ' ');
    assert x + " " + y == x + [' '] + y;
    SplitAtFirst(x, y, ' ');
    assert x + " " + y + " " + rest == x + [' '] + (y + [' '] + rest);
    SplitAtFirst(y, rest, ' ');
    SplitAtFirst(x, y + [' '] + rest, ' ');
  }

  /** One word stands for the first axis; the second takes its default. */
  lemma OneWord(x: string)
    requires x != "" && ' ' !in x
    ensures ParsePosition(Some(x)) == (x, "0%")
    ensures x != "cover" && x != "contain" ==> ParseSize(Some(x)) == (x, "auto")
  {
    SplitNoSeparator(x, ' ');
  }

  /** The keywords `cover` and `contain` are copied onto both axes. */
  lemma SizeKeywords()
    ensures ParseSize(Some("cover")) == ("cover", "cover")
    ensures ParseSize(Some("contain")) == ("contain", "contain")
  {
  }

  /** A leading space leaves the first axis empty, so it takes the default. */
  lemma LeadingSpace(y: string)
    requires y != "" && ' ' !in y
    ensures ParsePosition(Some(" " + y)) == ("0%", y)
    ensures ParseSize(Some(" " + y)) == ("auto", y)
  {
    SplitAtFirst("", y, ' ');
    SplitNoSeparator(y, ' ');
    assert "" + [' '] + y == " " + y;
    assert (" " + y)[0] == ' ';
  }
}
