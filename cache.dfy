/** The pixel style cache of `usePixelCache.tsx`: one map, shared by every
    use of the hook, from a key naming the style text and the rendering
    options to the data URL of the background rendered for them. */
module PixelCaching {
  import opened Js
  import opened Text
  import opened NumText
  import opened Wrappers
  import opened StyleObjects
  import opened PixelEngine
  import BackgroundRenderer

  /** `createCacheKey(css, options)`: `css|WxH@Ppx`. */
  function CreateCacheKey(css: string, o: BackgroundRenderer.RenderOptions, frac: (real, nat) -> string): string {
    css + "|" + Show(o.width, frac) + "x" + Show(o.height, frac) + "@" + Show(o.pixelSize, frac) + "px"
  }

  /** The style returned on a hit: the stored URL stretched over the
      requested size, and nothing of the text style. */
  function CachedStyle(url: string, o: BackgroundRenderer.RenderOptions): (m: StyleObject)
    ensures m.Keys == HitKeys
  {
    map["backgroundImage" := Text("url(" + url + ")"), "backgroundSize" := Text("cover"),
        "backgroundRepeat" := Text("no-repeat"), "backgroundPosition" := Text("center"),
        "imageRendering" := Text("pixelated"), "width" := Numeric(o.width), "height" := Numeric(o.height)]
  }

  const HitKeys: set<string> := {
    "backgroundImage", "backgroundSize", "backgroundRepeat", "backgroundPosition", "imageRendering", "width", "height"}

  predicate Distinct(s: seq<string>) {
    forall i, j :: 0 <= i < j < |s| ==> s[i] != s[j]
  }

  /** The keys of `s` other than `k`, in their order. */
  function Without(s: seq<string>, k: string): seq<string> {
    if s == [] then []
    else if s[0] == k then Without(s[1..], k)
    else [s[0]] + Without(s[1..], k)
  }

  /** The map behind the hook.  `order` is the order in which `Map` lists its
      keys: the order of first insertion, kept across updates of a key. */
  class PixelCache {
    var entries: map<string, string>
    var order: seq<string>

    ghost predicate Valid()
      reads this
    {
      (forall k :: k in entries <==> k in order) && Distinct(order)
    }

    constructor()
      ensures Valid() && entries == map[] && order == []
    {
      entries := map[];
      order := [];
    }

    /** `pixelCache.set(key, value)`. */
    method Set(key: string, value: string)
      requires Valid()
      modifies this
      ensures Valid()
      ensures entries == old(entries)[key := value]
      ensures order == if key in old(entries) then old(order) else old(order) + [key]
    {
      if key !in entries {
        order := order + [key];
      }
      entries := entries[key := value];
    }

    /** `useCachedPixelCSS(css, options)`, one evaluation of its memoised
        body.  A stored non-empty URL is a hit and is returned as
        `CachedStyle` without rendering.  Otherwise the style is rendered:
        `renders` says whether rendering completes (the browser gives a 2D
        context); if it does, the URL is stored under the key and the merged
        container and text style returned, and if it throws, the result is
        the empty object and the cache is left as it was. */
    method UseCachedPixelCSS(css: string, o: BackgroundRenderer.RenderOptions, host: Host, renders: bool)
      returns (style: StyleObject)
      requires Valid()
      modifies this
      ensures Valid()
      ensures var key := CreateCacheKey(css, o, host.frac);
        key in old(entries) && old(entries)[key] != "" ==>
          style == CachedStyle(old(entries)[key], o) && entries == old(entries) && order == old(order)
      ensures var key := CreateCacheKey(css, o, host.frac);
        !(key in old(entries) && old(entries)[key] != "") && !renders ==>
          style == map[] && entries == old(entries) && order == old(order)
      ensures var key := CreateCacheKey(css, o, host.frac);
        var r := PixelizeCSS(css, o, host);
        !(key in old(entries) && old(entries)[key] != "") && renders ==>
          style == MergedStyle(r) && entries == old(entries)[key := r.backgroundImage] &&
          order == if key in old(entries) then old(order) else old(order) + [key]
    {
      var key := CreateCacheKey(css, o, host.frac);
      if key in entries && entries[key] != "" {
        return CachedStyle(entries[key], o);
      }
      if !renders {
        return map[];
      }
      var pixelized := PixelizeCSS(css, o, host);
      Set(key, pixelized.backgroundImage);
      style := MergedStyle(pixelized);
    }

    /** `clearCache()`. */
    method Clear()
      modifies this
      ensures Valid() && entries == map[] && order == []
    {
      entries := map[];
      order := [];
    }

    /** `removeCacheEntry(key)`: deletes that key alone and says whether it
        was there. */
    method Remove(key: string) returns (present: bool)
      requires Valid()
      modifies this
      ensures Valid()
      ensures present <==> key in old(entries)
      ensures entries == old(entries) - {key}
      ensures order == Without(old(order), key)
    {
      present := key in entries;
      WithoutKeeps(order, key);
      entries := entries - {key};
      order := Without(order, key);
    }

    /** `getCacheInfo()`: the size of the map and its keys, in order.  The
        size is the number of keys listed. */
    method Info() returns (size: nat, keys: seq<string>)
      requires Valid()
      ensures size == |entries| && keys == order
      ensures size == |keys|
      ensures forall k :: k in keys <==> k in entries
    {
      DistinctCardinality(order);
      assert entries.Keys == set k | k in order;
      size := |entries|;
      keys := order;
    }
  }

  /** Dropping a key keeps the others, in order, each once. */
  lemma {:induction false} WithoutKeeps(s: seq<string>, k: string)
    requires Distinct(s)
    ensures Distinct(Without(s, k))
    ensures forall x :: x in Without(s, k) <==> x in s && x != k
  {
    if s != [] {
      assert Distinct(s[1..]) by {
        forall i, j | 0 <= i < j < |s[1..]| ensures s[1..][i] != s[1..][j] {
          assert s[1..][i] == s[i + 1] && s[1..][j] == s[j + 1];
        }
      }
      WithoutKeeps(s[1..], k);
      if s[0] != k {
        var rest := Without(s[1..], k);
        assert s[0] !in s[1..] by {
          forall i | 0 <= i < |s[1..]| ensures s[1..][i] != s[0] {
            assert s[1..][i] == s[i + 1];
          }
        }
        forall i, j | 0 <= i < j < |[s[0]] + rest| ensures ([s[0]] + rest)[i] != ([s[0]] + rest)[j] {
          if i == 0 {
            assert ([s[0]] + rest)[j] == rest[j - 1];
            assert rest[j - 1] in rest;
          } else {
            assert ([s[0]] + rest)[i] == rest[i - 1] && ([s[0]] + rest)[j] == rest[j - 1];
          }
        }
      }
    }
  }

  /** A list of distinct keys is as long as the set of its keys is large. */
  lemma {:induction false} DistinctCardinality(s: seq<string>)
    requires Distinct(s)
    ensures |set k | k in s| == |s|
  {
    if s != [] {
      var t := s[1..];
      assert Distinct(t) by {
        forall i, j | 0 <= i < j < |t| ensures t[i] != t[j] {
          assert t[i] == s[i + 1] && t[j] == s[j + 1];
        }
      }
      DistinctCardinality(t);
      assert s[0] !in t by {
        forall i | 0 <= i < |t| ensures t[i] != s[0] {
          assert t[i] == s[i + 1];
        }
      }
      assert (set k | k in s) == {s[0]} + (set k | k in t) by {
        assert s == [s[0]] + t;
      }
    }
  }

  // ----- the key names its request -----

  /** A whole number prints as an optional minus and decimal digits, and
      `Number` reads it back. */
  lemma ShowWhole(n: Num, frac: (real, nat) -> string)
    requires WholeNumber(n)
    ensures '|' !in Show(n, frac) && 'x' !in Show(n, frac) && '@' !in Show(n, frac)
    ensures ToNumber(Show(n, frac)) == n
  {
    var k := Floor(n.v);
    assert n == Int(k);
    IntegerText(k, frac);
    IntegerTextRoundTrip(k);
    IntegerChars(k);
  }

  lemma IntegerChars(k: int)
    ensures forall i :: 0 <= i < |IntToString(k)| ==> IntToString(k)[i] == '-' || IsDigit(IntToString(k)[i])
  {
    var m: nat := if k < 0 then -k else k;
    DecimalDigits(m);
    var s := IntToString(k);
    forall i | 0 <= i < |s| ensures s[i] == '-' || IsDigit(s[i]) {
      if k < 0 && i > 0 {
        assert s[i] == NatToRadix(m, 10)[i - 1];
      }
    }
  }

  /** Two texts that agree, each cut at its first `c`, agree on both parts. */
  lemma FirstSeparator(a1: string, b1: string, a2: string, b2: string, c: char)
    requires c !in a1 && c !in a2
    requires a1 + [c] + b1 == a2 + [c] + b2
    ensures a1 == a2 && b1 == b2
  {
    var s := a1 + [c] + b1;
    assert forall i :: 0 <= i < |a1| ==> s[i] == a1[i] && s[i] != c;
    assert forall i :: 0 <= i < |a2| ==> s[i] == a2[i] && s[i] != c;
    assert s[|a1|] == c && s[|a2|] == c;
    assert a1 == s[..|a1|] == a2;
    assert b1 == s[|a1| + 1..] == b2;
  }

  /** Two texts that agree, each cut at its last `c`, agree on both parts. */
  lemma LastSeparator(a1: string, b1: string, a2: string, b2: string, c: char)
    requires c !in b1 && c !in b2
    requires a1 + [c] + b1 == a2 + [c] + b2
    ensures a1 == a2 && b1 == b2
  {
    var s := a1 + [c] + b1;
    assert forall i :: |a1| < i < |s| ==> s[i] == b1[i - |a1| - 1] && s[i] != c;
    assert forall i :: |a2| < i < |s| ==> s[i] == b2[i - |a2| - 1] && s[i] != c;
    assert s[|a1|] == c && s[|a2|] == c;
    assert a1 == s[..|a1|] == a2;
    assert b1 == s[|a1| + 1..] == b2;
  }

  /** For whole-number options the key names its request: two requests with
      the same key have the same style text and the same options, even when
      the text itself holds `|`. */
  lemma KeyDeterminesRequest(css1: string, o1: BackgroundRenderer.RenderOptions,
                             css2: string, o2: BackgroundRenderer.RenderOptions, frac: (real, nat) -> string)
    requires WholeNumber(o1.width) && WholeNumber(o1.height) && WholeNumber(o1.pixelSize)
    requires WholeNumber(o2.width) && WholeNumber(o2.height) && WholeNumber(o2.pixelSize)
    requires CreateCacheKey(css1, o1, frac) == CreateCacheKey(css2, o2, frac)
    ensures css1 == css2 && o1 == o2
  {
    ShowWhole(o1.width, frac); ShowWhole(o1.height, frac); ShowWhole(o1.pixelSize, frac);
    ShowWhole(o2.width, frac); ShowWhole(o2.height, frac); ShowWhole(o2.pixelSize, frac);
    KeyFields(css1, Show(o1.width, frac), Show(o1.height, frac), Show(o1.pixelSize, frac),
              css2, Show(o2.width, frac), Show(o2.height, frac), Show(o2.pixelSize, frac));
  }

  /** A key splits back into the style text and the three printed numbers
      when the numbers hold none of the separators. */
  lemma KeyFields(css1: string, w1: string, h1: string, p1: string,
                  css2: string, w2: string, h2: string, p2: string)
    requires '|' !in w1 && 'x' !in w1 && '|' !in h1 && '@' !in h1 && '|' !in p1
    requires '|' !in w2 && 'x' !in w2 && '|' !in h2 && '@' !in h2 && '|' !in p2
    requires css1 + "|" + w1 + "x" + h1 + "@" + p1 + "px" == css2 + "|" + w2 + "x" + h2 + "@" + p2 + "px"
    ensures css1 == css2 && w1 == w2 && h1 == h2 && p1 == p2
  {
    var tail1, tail2 := p1 + "px", p2 + "px";
    var rest1, rest2 := h1 + ['@'] + tail1, h2 + ['@'] + tail2;
    var suffix1, suffix2 := w1 + ['x'] + rest1, w2 + ['x'] + rest2;
    KeyShape(css1, w1, h1, p1);
    KeyShape(css2, w2, h2, p2);
    LastSeparator(css1, suffix1, css2, suffix2, '|');
    FirstSeparator(w1, rest1, w2, rest2, 'x');
    FirstSeparator(h1, tail1, h2, tail2, '@');
    assert p1 == tail1[..|tail1| - 2] == tail2[..|tail2| - 2] == p2;
  }

  lemma KeyShape(css: string, w: string, h: string, p: string)
    requires '|' !in w && '|' !in h && '|' !in p
    ensures var suffix := w + ['x'] + (h + ['@'] + (p + "px"));
      css + "|" + w + "x" + h + "@" + p + "px" == css + ['|'] + suffix && '|' !in suffix
  {
  }

  /** A hit gives what the miss that stored the URL gave on the seven
      properties it sets. */
  lemma HitAgreesWithMiss(r: PixelizedResult, o: BackgroundRenderer.RenderOptions)
    requires r.containerStyle.width == o.width && r.containerStyle.height == o.height
    requires r.containerStyle.backgroundImage == "url(" + r.backgroundImage + ")"
    requires r.containerStyle.backgroundSize == "cover" && r.containerStyle.backgroundRepeat == "no-repeat"
    requires r.containerStyle.backgroundPosition == "center" && r.containerStyle.imageRendering == "pixelated"
    ensures var hit, miss := CachedStyle(r.backgroundImage, o), MergedStyle(r);
      forall k :: k in hit ==> k in miss && hit[k] == miss[k]
  {
    var hit, container := CachedStyle(r.backgroundImage, o), ContainerObject(r.containerStyle);
    assert hit.Keys <= ContainerKeys;
    forall k | k in hit ensures hit[k] == container[k] {
    }
  }

  /** A hit drops display, alignment, padding and every text property. */
  lemma HitDropsTheRest(url: string, r: PixelizedResult, o: BackgroundRenderer.RenderOptions)
    ensures MergedStyle(r).Keys - CachedStyle(url, o).Keys ==
      {"display", "alignItems", "justifyContent", "padding"} + TextKeys
  {
    assert (ContainerKeys + TextKeys) - HitKeys == {"display", "alignItems", "justifyContent", "padding"} + TextKeys;
  }

  /** Every miss that renders is a result `pixelizeCSS` could give, so what
      the previous lemma says applies to what the cache stores. */
  lemma RenderedResultShape(css: string, o: BackgroundRenderer.RenderOptions, host: Host)
    ensures var r := PixelizeCSS(css, o, host);
      r.containerStyle.width == o.width && r.containerStyle.height == o.height &&
      r.containerStyle.backgroundImage == "url(" + r.backgroundImage + ")" &&
      r.containerStyle.backgroundSize == "cover" && r.containerStyle.backgroundRepeat == "no-repeat" &&
      r.containerStyle.backgroundPosition == "center" && r.containerStyle.imageRendering == "pixelated"
  {
  }
}
