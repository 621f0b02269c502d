/**
 * A worked scenario on the shared cache model: one section of three items in a
 * 300-point-wide viewport with the default spacing (8) and insets (20), then the
 * middle item reporting a preferred height of 34.
 */
module Scenarios {
  import opened Geometry
  import opened IndexPaths
  import opened LayoutCache

  const DefaultInsets := Insets(20, 20, 20, 20)

  lemma ThreeItemsEnumerate()
    ensures Enumerate([3]) == [IndexPath(0, 0), IndexPath(0, 1), IndexPath(0, 2)]
  {
    assert EnumerateFrom([3], 1) == [];
    assert SectionPaths(0, 3) == [IndexPath(0, 0), IndexPath(0, 1), IndexPath(0, 2)];
  }

  /** The cache the full layout pass produces for the three items. */
  const Laid: Cache := map[
    IndexPath(0, 0) := Rect(20, 20, 260, 10),
    IndexPath(0, 1) := Rect(20, 38, 260, 10),
    IndexPath(0, 2) := Rect(20, 56, 260, 10)]

  /**
   * The full layout pass stacks the three items 18 points apart from the top
   * inset, each 260 points wide (300 less both side insets).
   */
  lemma ThreeItemLayout()
    ensures EstimatedCache(Elements(Enumerate([3])), DefaultInsets, 260, 8) == Laid
  {
    ThreeItemsEnumerate();
    var order := [IndexPath(0, 0), IndexPath(0, 1), IndexPath(0, 2)];
    var keys := Elements(order);
    var m := EstimatedCache(keys, DefaultInsets, 260, 8);
    EstimatedCacheAt(order, 0, DefaultInsets, 260, 8);
    EstimatedCacheAt(order, 1, DefaultInsets, 260, 8);
    EstimatedCacheAt(order, 2, DefaultInsets, 260, 8);
    assert keys == Laid.Keys;
    assert m == Laid;
  }

  /** The content height counts one spacing per item: 20 + 3 * (10 + 8) + 20 = 94. */
  lemma LaidContentHeight()
    ensures ContentHeight(Laid, 8, DefaultInsets) == 94
  {
    ThreeItemLayout();
    ThreeItemsEnumerate();
    var order := [IndexPath(0, 0), IndexPath(0, 1), IndexPath(0, 2)];
    IncreasingCardinality(order);
    ContentHeightOfEstimated(Elements(order), DefaultInsets, 260, 8);
  }

  /**
   * When the middle item grows from 10 to 34, the top item stays, the middle item
   * keeps its origin and takes the new height, the bottom item moves from 56 to
   * 80, and the content height grows by the same 24 points.
   */
  lemma MiddleItemGrows()
    ensures var p := Patched(Laid, IndexPath(0, 1), 34, 24);
      && p == map[
           IndexPath(0, 0) := Rect(20, 20, 260, 10),
           IndexPath(0, 1) := Rect(20, 38, 260, 34),
           IndexPath(0, 2) := Rect(20, 80, 260, 10)]
      && ContentHeight(p, 8, DefaultInsets) == 118
  {
    var p := Patched(Laid, IndexPath(0, 1), 34, 24);
    assert p[IndexPath(0, 0)] == Rect(20, 20, 260, 10);
    assert p[IndexPath(0, 1)] == Rect(20, 38, 260, 34);
    assert p[IndexPath(0, 2)] == Rect(20, 80, 260, 10);
    LaidContentHeight();
    PatchChangesContentHeight(Laid, IndexPath(0, 1), 34, 24, 8, DefaultInsets);
  }

}
