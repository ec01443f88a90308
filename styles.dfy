/** The style maps of the newer renderer: the computed style of an element as
    a map from property name to its list of values, and that map cut into the
    four boxes of the CSS box model. */
module Styles {
  import opened StyleMaps

  /** One entry of `computedStyleMap()`: a property and its values, each
      already turned into text. */
  datatype StyleEntry = StyleEntry(property: string, values: seq<string>)

  /** The map the entries fill in order; a later entry for the same property
      replaces an earlier one. */
  function FromEntries(entries: seq<StyleEntry>): StyleMap
    decreases |entries|
  {
    if entries == [] then map[]
    else
      var last := entries[|entries| - 1];
      FromEntries(entries[..|entries| - 1])[last.property := last.values]
  }

  /** `styleMap`: the entries of the element's computed style, one at a time. */
  method StyleMapOf(entries: seq<StyleEntry>) returns (m: StyleMap)
    ensures m == FromEntries(entries)
  {
    m := map[];
    for i := 0 to |entries|
      invariant m == FromEntries(entries[..i])
    {
      assert entries[..i + 1][..i] == entries[..i];
      m := m[entries[i].property := entries[i].values];
    }
    assert entries[..|entries|] == entries;
  }

  /** Entry `i` is the last one for property `k`. */
  predicate LastEntry(entries: seq<StyleEntry>, i: int, k: string) {
    0 <= i < |entries| && entries[i].property == k &&
    forall j :: i < j < |entries| ==> entries[j].property != k
  }

  /** The map has exactly the properties of the entries. */
  lemma {:induction false} FromEntriesKeys(entries: seq<StyleEntry>, k: string)
    ensures k in FromEntries(entries) <==> exists i :: 0 <= i < |entries| && entries[i].property == k
    decreases |entries|
  {
    if entries != [] {
      var n := |entries| - 1;
      FromEntriesKeys(entries[..n], k);
      if k in FromEntries(entries) && entries[n].property != k {
        var i :| 0 <= i < n && entries[..n][i].property == k;
        assert entries[i].property == k;
      }
      if exists i :: 0 <= i < |entries| && entries[i].property == k {
        var i :| 0 <= i < |entries| && entries[i].property == k;
        if i < n { assert entries[..n][i].property == k; }
      }
    }
  }

  /** Each property is mapped to the values of its last entry. */
  lemma {:induction false} FromEntriesLast(entries: seq<StyleEntry>, i: int, k: string)
    requires LastEntry(entries, i, k)
    ensures k in FromEntries(entries) && FromEntries(entries)[k] == entries[i].values
    decreases |entries|
  {
    var n := |entries| - 1;
    if i < n {
      assert entries[n].property != k;
      FromEntriesLast(entries[..n], i, k);
    }
  }

  /** The four boxes of `BoxStyles`. */
  datatype BoxKey = ContentBox | PaddingBox | BorderBox | MarginBox

  /** A named group of properties. */
  datatype Group = Group(name: string, properties: seq<string>)

  /** The groups of one box. */
  datatype BoxGroups = BoxGroups(box: BoxKey, groups: seq<Group>)

  const ContentBoxGroups := [
    Group("background", ["background", "background-color", "background-image", "background-position", "background-repeat", "background-size"]),
    Group("text", ["color", "font-size", "font-family", "text-align", "line-height"]),
    Group("size", ["width", "height", "min-width", "min-height", "max-width", "max-height"])]

  const PaddingBoxGroups := [
    Group("padding", ["padding", "padding-top", "padding-right", "padding-bottom", "padding-left"])]

  const BorderBoxGroups := [
    Group("border", ["border", "border-width", "border-style", "border-color"]),
    Group("borderSides", ["border-top", "border-right", "border-bottom", "border-left"]),
    Group("borderRadius", ["border-radius", "border-top-left-radius", "border-top-right-radius", "border-bottom-right-radius", "border-bottom-left-radius"]),
    Group("shadow", ["box-shadow"])]

  const MarginBoxGroups := [
    Group("margin", ["margin", "margin-top", "margin-right", "margin-bottom", "margin-left"]),
    Group("outline", ["outline", "outline-width", "outline-style", "outline-color", "outline-offset"])]

  /** `STYLE_GROUPS`, in its declaration order. */
  const StyleGroups := [
    BoxGroups(ContentBox, ContentBoxGroups), BoxGroups(PaddingBox, PaddingBoxGroups),
    BoxGroups(BorderBox, BorderBoxGroups), BoxGroups(MarginBox, MarginBoxGroups)]

  /** `Object.values(groups).flat()`: the groups' properties, group after group. */
  function Flatten(groups: seq<Group>): seq<string>
    decreases |groups|
  {
    if groups == [] then [] else groups[0].properties + Flatten(groups[1..])
  }

  /** A property is in the flattened list exactly when one of the groups lists it. */
  lemma {:induction false} FlattenMembers(groups: seq<Group>, p: string)
    ensures p in Flatten(groups) <==> exists g :: g in groups && p in g.properties
    decreases |groups|
  {
    if groups != [] {
      FlattenMembers(groups[1..], p);
      assert forall g :: g in groups <==> g == groups[0] || g in groups[1..];
    }
  }

  /** The style map of one box: every listed property with its value list,
      or `[]` when the element's style map lacks it. */
  function Picked(styles: StyleMap, props: seq<string>): StyleMap {
    map p | p in props :: List(styles, p)
  }

  /** A box's map holds exactly its listed properties; a listed property the
      style map has keeps its list, one it lacks maps to `[]`. */
  lemma PickedEntries(styles: StyleMap, props: seq<string>, k: string)
    ensures k in Picked(styles, props) <==> k in props
    ensures k in props && k in styles ==> Picked(styles, props)[k] == styles[k]
    ensures k in props && k !in styles ==> Picked(styles, props)[k] == []
  {
  }

  /** Adding one more property to a box's map. */
  lemma PickedSnoc(styles: StyleMap, props: seq<string>, i: nat)
    requires i < |props|
    ensures Picked(styles, props[..i + 1]) == Picked(styles, props[..i])[props[i] := List(styles, props[i])]
  {
    var a := Picked(styles, props[..i + 1]);
    var b := Picked(styles, props[..i])[props[i] := List(styles, props[i])];
    assert forall p :: p in props[..i + 1] <==> p in props[..i] || p == props[i];
    assert a.Keys == b.Keys;
  }

  /** The boxes the entries `boxes` fill in order. */
  function Collected(styles: StyleMap, boxes: seq<BoxGroups>): map<BoxKey, StyleMap>
    decreases |boxes|
  {
    if boxes == [] then map[]
    else
      var last := boxes[|boxes| - 1];
      Collected(styles, boxes[..|boxes| - 1])[last.box := Picked(styles, Flatten(last.groups))]
  }

  /** One box's map: its groups' properties, one at a time. */
  method PickBox(styles: StyleMap, groups: seq<Group>) returns (groupAcc: StyleMap)
    ensures groupAcc == Picked(styles, Flatten(groups))
  {
    var props := Flatten(groups);
    groupAcc := map[];
    for i := 0 to |props|
      invariant groupAcc == Picked(styles, props[..i])
    {
      PickedSnoc(styles, props, i);
      groupAcc := groupAcc[props[i] := List(styles, props[i])];
    }
    assert props[..|props|] == props;
  }

  /** `boxStyles`: each box of `STYLE_GROUPS` filled from the element's
      style map. */
  method BoxStyles(styles: StyleMap) returns (acc: map<BoxKey, StyleMap>)
    ensures acc == Collected(styles, StyleGroups)
  {
    acc := FillBoxes(styles, StyleGroups);
  }

  /** The reduction over the boxes, in order. */
  method FillBoxes(styles: StyleMap, boxes: seq<BoxGroups>) returns (acc: map<BoxKey, StyleMap>)
    ensures acc == Collected(styles, boxes)
  {
    acc := map[];
    for j := 0 to |boxes|
      invariant acc == Collected(styles, boxes[..j])
    {
      assert boxes[..j + 1][..j] == boxes[..j];
      var box := PickBox(styles, boxes[j].groups);
      acc := acc[boxes[j].box := box];
    }
    assert boxes[..|boxes|] == boxes;
  }

  /** With each box named once, a named box holds the map of its own groups. */
  lemma {:induction false} CollectedValue(styles: StyleMap, boxes: seq<BoxGroups>, i: nat)
    requires i < |boxes|
    requires forall a, b :: 0 <= a < b < |boxes| ==> boxes[a].box != boxes[b].box
    ensures boxes[i].box in Collected(styles, boxes) &&
      Collected(styles, boxes)[boxes[i].box] == Picked(styles, Flatten(boxes[i].groups))
    decreases |boxes|
  {
    var n := |boxes| - 1;
    if i < n {
      assert boxes[i].box != boxes[n].box;
      CollectedValue(styles, boxes[..n], i);
    }
  }

  /** `boxStyles` returns exactly the four boxes, each holding exactly the
      properties of its groups in `STYLE_GROUPS`. */
  lemma BoxStylesShape(styles: StyleMap)
    ensures var acc := Collected(styles, StyleGroups);
      acc.Keys == {ContentBox, PaddingBox, BorderBox, MarginBox} &&
      acc[ContentBox] == Picked(styles, Flatten(ContentBoxGroups)) &&
      acc[PaddingBox] == Picked(styles, Flatten(PaddingBoxGroups)) &&
      acc[BorderBox] == Picked(styles, Flatten(BorderBoxGroups)) &&
      acc[MarginBox] == Picked(styles, Flatten(MarginBoxGroups))
  {
    var boxes := StyleGroups;
    assert boxes[0].box == ContentBox && boxes[1].box == PaddingBox;
    assert boxes[2].box == BorderBox && boxes[3].box == MarginBox;
    CollectedValue(styles, boxes, 0);
    CollectedValue(styles, boxes, 1);
    CollectedValue(styles, boxes, 2);
    CollectedValue(styles, boxes, 3);
    var acc := Collected(styles, boxes);
    forall k | k in acc ensures k in {ContentBox, PaddingBox, BorderBox, MarginBox} {
      assert k.ContentBox? || k.PaddingBox? || k.BorderBox? || k.MarginBox?;
    }
  }
}
