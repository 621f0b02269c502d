/**
 * The layout cache as a value: a map from index path to frame. This module holds
 * what both layout classes share: the estimated frames a full layout pass writes,
 * the stacking invariant, the content height, and the in-place patch applied when
 * one item reports a preferred height.
 */
module LayoutCache {
  import opened Geometry
  import opened IndexPaths

  type Cache = map<IndexPath, Rect>

  /** The placeholder height of an item whose content has not been measured. */
  const EstimatedHeight := 10

  /** The frame a full layout pass gives the item displayed at position `position`. */
  function EstimatedFrame(position: nat, insets: Insets, width: int, spacing: int): Rect {
    Rect(insets.left, insets.top + position * (EstimatedHeight + spacing), width, EstimatedHeight)
  }

  /** The running offset of the reduce: one more row moves it down by one step. */
  lemma NextRow(i: int, step: int)
    ensures (i + 1) * step == i * step + step
  {
  }

  /** The cache a full layout pass produces over `keys`: every item at its place in display order. */
  function EstimatedCache(keys: set<IndexPath>, insets: Insets, width: int, spacing: int): Cache {
    map k | k in keys :: EstimatedFrame(Rank(keys, k), insets, width, spacing)
  }

  /**
   * When the `i`-th path of an increasing sequence has the `i`-th estimated frame,
   * and nothing else is cached, the cache is the estimated cache over those paths.
   */
  lemma EstimatedCacheFromOrder(m: Cache, order: seq<IndexPath>, insets: Insets, width: int, spacing: int)
    requires Increasing(order)
    requires forall k :: k in m <==> k in order
    requires forall i :: 0 <= i < |order| ==> m[order[i]] == EstimatedFrame(i, insets, width, spacing)
    ensures m == EstimatedCache(m.Keys, insets, width, spacing)
  {
    assert m.Keys == Elements(order);
    forall k | k in m
      ensures m[k] == EstimatedFrame(Rank(m.Keys, k), insets, width, spacing)
    {
      var i :| 0 <= i < |order| && order[i] == k;
      RankAt(order, i);
    }
  }

  /** The estimated frame of the `i`-th path, read back from the estimated cache. */
  lemma EstimatedCacheAt(order: seq<IndexPath>, i: int, insets: Insets, width: int, spacing: int)
    requires Increasing(order) && 0 <= i < |order|
    ensures order[i] in EstimatedCache(Elements(order), insets, width, spacing)
    ensures EstimatedCache(Elements(order), insets, width, spacing)[order[i]] == EstimatedFrame(i, insets, width, spacing)
  {
    RankAt(order, i);
  }

  // ---------------------------------------------------------------------------
  // Stacking

  /**
   * The stacking invariant over the display order `order` of the cache: the first
   * item starts at `top`, each next item starts `spacing` below the bottom of the
   * previous one, and every item advances the cursor (height + spacing > 0).
   */
  ghost predicate Stacked(m: Cache, order: seq<IndexPath>, top: int, spacing: int) {
    && Increasing(order)
    && (forall k :: k in m <==> k in order)
    && (|order| > 0 ==> m[order[0]].y == top)
    && (forall i :: 0 <= i < |order| ==> m[order[i]].height + spacing > 0)
    && (forall i :: 0 < i < |order| ==> FollowsPrevious(m, order, spacing, i))
  }

  /** The `i`-th item starts `spacing` below the bottom of the item before it. */
  ghost predicate FollowsPrevious(m: Cache, order: seq<IndexPath>, spacing: int, i: int) {
    && 0 < i < |order| && order[i] in m && order[i - 1] in m
    && m[order[i]].y == m[order[i - 1]].y + m[order[i - 1]].height + spacing
  }

  /** A stacked cache has strictly increasing y-origins in display order. */
  lemma {:induction false} StackedIncreasing(m: Cache, order: seq<IndexPath>, top: int, spacing: int, i: int, j: int)
    requires Stacked(m, order, top, spacing)
    requires 0 <= i < j < |order|
    ensures m[order[i]].y < m[order[j]].y
    decreases j - i
  {
    assert FollowsPrevious(m, order, spacing, j);
    assert m[order[j - 1]].height + spacing > 0;
    if i + 1 < j {
      StackedIncreasing(m, order, top, spacing, i, j - 1);
    }
  }

  /** The estimated cache over the enumeration order is stacked from the top inset. */
  lemma EstimatedIsStacked(order: seq<IndexPath>, insets: Insets, width: int, spacing: int)
    requires Increasing(order)
    requires EstimatedHeight + spacing > 0
    ensures Stacked(EstimatedCache(Elements(order), insets, width, spacing), order, insets.top, spacing)
  {
    var m := EstimatedCache(Elements(order), insets, width, spacing);
    forall i | 0 <= i < |order|
      ensures m[order[i]] == EstimatedFrame(i, insets, width, spacing)
    {
      EstimatedCacheAt(order, i, insets, width, spacing);
    }
    forall i | 0 < i < |order|
      ensures FollowsPrevious(m, order, spacing, i)
    {
      assert i * (EstimatedHeight + spacing) == (i - 1) * (EstimatedHeight + spacing) + EstimatedHeight + spacing;
    }
  }

  // ---------------------------------------------------------------------------
  // Content height

  ghost function PickKey(m: Cache): (k: IndexPath)
    requires m != map[]
    ensures k in m
  {
    var k :| k in m; k
  }

  /** The sum of the heights of all cached frames, in no particular order. */
  ghost function SumHeights(m: Cache): int
    decreases |m|
  {
    if m == map[] then 0
    else
      var k := PickKey(m);
      assert |(m - {k}).Keys| == |m.Keys - {k}| == |m.Keys| - 1;
      m[k].height + SumHeights(m - {k})
  }

  /** The sum does not depend on which key is taken out first. */
  lemma {:induction false} SumHeightsRemove(m: Cache, k: IndexPath)
    requires k in m
    ensures SumHeights(m) == m[k].height + SumHeights(m - {k})
    decreases |m|
  {
    var j := PickKey(m);
    if j != k {
      assert |(m - {j}).Keys| == |m.Keys - {j}| == |m.Keys| - 1;
      SumHeightsRemove(m - {j}, k);
      assert |(m - {k}).Keys| == |m.Keys - {k}| == |m.Keys| - 1;
      SumHeightsRemove(m - {k}, j);
      assert m - {j} - {k} == m - {k} - {j};
    }
  }

  /** Only heights count: two caches with the same keys and heights have the same sum. */
  lemma {:induction false} SumHeightsSameHeights(a: Cache, b: Cache)
    requires a.Keys == b.Keys
    requires forall k :: k in a ==> a[k].height == b[k].height
    ensures SumHeights(a) == SumHeights(b)
    decreases |a|
  {
    if a != map[] {
      var k := PickKey(a);
      SumHeightsRemove(b, k);
      assert |(a - {k}).Keys| == |a.Keys - {k}| == |a.Keys| - 1;
      SumHeightsSameHeights(a - {k}, b - {k});
    }
  }

  /** Changing the height of one entry changes the sum by the difference. */
  lemma SumHeightsChangeOne(a: Cache, b: Cache, p: IndexPath)
    requires a.Keys == b.Keys && p in a
    requires forall k :: k in a && k != p ==> a[k].height == b[k].height
    ensures SumHeights(b) == SumHeights(a) - a[p].height + b[p].height
  {
    SumHeightsRemove(a, p);
    SumHeightsRemove(b, p);
    SumHeightsSameHeights(a - {p}, b - {p});
  }

  /** The heights of the paths of `s`, added up in order. */
  function HeightsAlong(m: Cache, s: seq<IndexPath>): int
    requires forall i :: 0 <= i < |s| ==> s[i] in m
  {
    if s == [] then 0 else HeightsAlong(m, s[..|s| - 1]) + m[s[|s| - 1]].height
  }

  lemma {:induction false} SumHeightsAlong(m: Cache, order: seq<IndexPath>)
    requires Increasing(order)
    requires forall k :: k in m <==> k in order
    ensures SumHeights(m) == HeightsAlong(m, order)
    decreases |order|
  {
    if order == [] {
      assert m == map[];
    } else {
      var last := order[|order| - 1];
      var init := order[..|order| - 1];
      SumHeightsRemove(m, last);
      assert Increasing(init);
      forall k ensures k in m - {last} <==> k in init {
        if k in m - {last} {
          var i :| 0 <= i < |order| && order[i] == k;
          assert i < |order| - 1;
          assert init[i] == k;
        }
        if k in init {
          var i :| 0 <= i < |init| && init[i] == k;
          assert Before(order[i], last);
        }
      }
      SumHeightsAlong(m - {last}, init);
      assert HeightsAlong(m - {last}, init) == HeightsAlong(m, init) by {
        HeightsAlongRestrict(m, m - {last}, init);
      }
    }
  }

  lemma {:induction false} HeightsAlongRestrict(m: Cache, n: Cache, s: seq<IndexPath>)
    requires forall i :: 0 <= i < |s| ==> s[i] in m && s[i] in n && m[s[i]] == n[s[i]]
    ensures HeightsAlong(m, s) == HeightsAlong(n, s)
    decreases |s|
  {
    if s != [] {
      HeightsAlongRestrict(m, n, s[..|s| - 1]);
    }
  }

  /** The content height: all item heights, one spacing per item, and the top and bottom insets. */
  ghost function ContentHeight(m: Cache, spacing: int, insets: Insets): int {
    SumHeights(m) + |m| * spacing + insets.top + insets.bottom
  }

  /** The y-origin of the `i`-th stacked item: the top plus the heights and spacings above it. */
  lemma {:induction false} StackedOrigin(m: Cache, order: seq<IndexPath>, top: int, spacing: int, i: int)
    requires Stacked(m, order, top, spacing) && 0 <= i < |order|
    ensures m[order[i]].y == top + HeightsAlong(m, order[..i]) + i * spacing
  {
    if i > 0 {
      StackedOrigin(m, order, top, spacing, i - 1);
      assert FollowsPrevious(m, order, spacing, i);
      assert order[..i][..i - 1] == order[..i - 1];
      assert i * spacing == (i - 1) * spacing + spacing;
    }
  }

  /**
   * The content of a stacked cache ends exactly one spacing and the bottom inset
   * below the bottom of its last item; an empty cache is just the two insets.
   */
  lemma ContentHeightOfStack(m: Cache, order: seq<IndexPath>, spacing: int, insets: Insets)
    requires Stacked(m, order, insets.top, spacing)
    ensures order == [] ==> ContentHeight(m, spacing, insets) == insets.top + insets.bottom
    ensures order != [] ==>
      var last := m[order[|order| - 1]];
      ContentHeight(m, spacing, insets) == last.y + last.height + spacing + insets.bottom
  {
    var n := |order|;
    SumHeightsAlong(m, order);
    assert |m| == n by {
      IncreasingCardinality(order);
      assert m.Keys == Elements(order);
    }
    if n > 0 {
      var last := order[n - 1];
      StackedOrigin(m, order, insets.top, spacing, n - 1);
      assert HeightsAlong(m, order) == HeightsAlong(m, order[..n - 1]) + m[last].height;
      StackArithmetic(SumHeights(m), HeightsAlong(m, order[..n - 1]), m[last].y, m[last].height,
                      n, spacing, insets.top, insets.bottom);
    } else {
      assert m == map[];
    }
  }

  lemma StackArithmetic(total: int, above: int, y: int, h: int, n: int, spacing: int, top: int, bottom: int)
    requires n > 0
    requires total == above + h
    requires y == top + above + (n - 1) * spacing
    ensures total + n * spacing + top + bottom == y + h + spacing + bottom
  {
    assert n * spacing == (n - 1) * spacing + spacing;
  }

  /** After a full layout pass the content height is the insets plus one estimated row per item. */
  lemma ContentHeightOfEstimated(keys: set<IndexPath>, insets: Insets, width: int, spacing: int)
    ensures ContentHeight(EstimatedCache(keys, insets, width, spacing), spacing, insets)
         == insets.top + insets.bottom + |keys| * (EstimatedHeight + spacing)
  {
    var m := EstimatedCache(keys, insets, width, spacing);
    assert m.Keys == keys;
    SumHeightsAllEstimated(m);
  }

  lemma {:induction false} SumHeightsAllEstimated(m: Cache)
    requires forall k :: k in m ==> m[k].height == EstimatedHeight
    ensures SumHeights(m) == |m| * EstimatedHeight
    decreases |m|
  {
    if m != map[] {
      var k := PickKey(m);
      assert |(m - {k}).Keys| == |m.Keys - {k}| == |m.Keys| - 1;
      SumHeightsAllEstimated(m - {k});
    }
  }

  // ---------------------------------------------------------------------------
  // Preferred-height patch

  /**
   * What the preferred-attributes invalidation does to one cached entry: entries
   * whose y-origin is at or below `threshold` (the changed item's original y) are
   * affected; the changed item takes `preferredHeight`, every other affected item
   * moves down by `delta`.
   */
  function PatchEntry(k: IndexPath, f: Rect, changed: IndexPath, threshold: int, preferredHeight: int, delta: int): Rect {
    if f.y < threshold then f
    else if k == changed then f.(height := preferredHeight)
    else f.(y := f.y + delta)
  }

  /** The whole cache after the preferred-attributes invalidation of `changed`. */
  function Patched(m: Cache, changed: IndexPath, preferredHeight: int, delta: int): (r: Cache)
    requires changed in m
    ensures r.Keys == m.Keys
    ensures forall k :: k in m ==> r[k].x == m[k].x && r[k].width == m[k].width
    ensures forall k :: k in m && m[k].y < m[changed].y ==> r[k] == m[k]
  {
    map k | k in m :: PatchEntry(k, m[k], changed, m[changed].y, preferredHeight, delta)
  }

  /** The paths of the entries at or below y-origin `y`: the items an invalidation at `y` affects. */
  function InvalidSet(m: Cache, y: int): set<IndexPath> {
    set k | k in m && m[k].y >= y
  }

  /**
   * The patch changes exactly the entries in the invalid set, when it changes
   * anything at all: nothing outside the set moves, and with a non-zero delta that
   * matches the height change every entry inside it changes.
   */
  lemma PatchChangesOnlyInvalid(m: Cache, changed: IndexPath, preferredHeight: int)
    requires changed in m
    ensures var delta := preferredHeight - m[changed].height;
      var r := Patched(m, changed, preferredHeight, delta);
      && (forall k :: k in m && r[k] != m[k] ==> k in InvalidSet(m, m[changed].y))
      && (delta != 0 ==> forall k :: k in InvalidSet(m, m[changed].y) ==> r[k] != m[k])
  {
  }

  /** When the preferred height equals the cached one, the patch leaves the cache as it was. */
  lemma PatchWithoutChange(m: Cache, changed: IndexPath)
    requires changed in m
    ensures Patched(m, changed, m[changed].height, 0) == m
  {
    var r := Patched(m, changed, m[changed].height, 0);
    assert forall k :: k in m ==> r[k] == m[k];
  }

  /**
   * The entry at position `i` of `order` after a patch of position `j`: unchanged
   * above, the preferred height at `j`, moved down by `delta` below.
   */
  ghost predicate ShiftedAt(m: Cache, r: Cache, order: seq<IndexPath>, j: int,
                            preferredHeight: int, delta: int, i: int)
    requires 0 <= i < |order| && order[i] in m && order[i] in r
  {
    && (i < j ==> r[order[i]] == m[order[i]])
    && (i == j ==> r[order[i]] == m[order[i]].(height := preferredHeight))
    && (i > j ==> r[order[i]] == m[order[i]].(y := m[order[i]].y + delta))
  }

  /**
   * The patch in display order on a stacked cache: the items before the changed
   * one keep their frames, the changed item takes the preferred height in place,
   * and every item after it moves down by `delta`.
   */
  lemma PatchShiftsByPosition(m: Cache, order: seq<IndexPath>, top: int, spacing: int,
                              j: int, preferredHeight: int, delta: int)
    requires Stacked(m, order, top, spacing)
    requires 0 <= j < |order|
    ensures var r := Patched(m, order[j], preferredHeight, delta);
      forall i :: 0 <= i < |order| ==> ShiftedAt(m, r, order, j, preferredHeight, delta, i)
  {
    var changed := order[j];
    var r := Patched(m, changed, preferredHeight, delta);
    forall i | 0 <= i < |order|
      ensures ShiftedAt(m, r, order, j, preferredHeight, delta, i)
    {
      if i < j {
        StackedIncreasing(m, order, top, spacing, i, j);
      } else if i > j {
        StackedIncreasing(m, order, top, spacing, j, i);
        assert order[i] != changed by {
          assert Before(order[j], order[i]);
        }
      }
    }
  }

  /**
   * The patch keeps the cache stacked: with delta = preferred height − original
   * height, the changed item grows or shrinks and every item below it moves by
   * exactly that much.
   */
  lemma PatchPreservesStacking(m: Cache, order: seq<IndexPath>, top: int, spacing: int,
                               j: int, preferredHeight: int)
    requires Stacked(m, order, top, spacing)
    requires 0 <= j < |order|
    requires preferredHeight + spacing > 0
    ensures var changed := order[j];
      Stacked(Patched(m, changed, preferredHeight, preferredHeight - m[changed].height), order, top, spacing)
  {
    var changed := order[j];
    var delta := preferredHeight - m[changed].height;
    var r := Patched(m, changed, preferredHeight, delta);
    PatchShiftsByPosition(m, order, top, spacing, j, preferredHeight, delta);
    ShiftKeepsStacking(m, r, order, top, spacing, j, preferredHeight, delta);
  }

  /**
   * Any cache with the same keys that is shifted by position as the patch is,
   * with delta = preferred height − original height, is stacked again.
   */
  lemma ShiftKeepsStacking(m: Cache, r: Cache, order: seq<IndexPath>, top: int, spacing: int,
                           j: int, preferredHeight: int, delta: int)
    requires Stacked(m, order, top, spacing)
    requires 0 <= j < |order|
    requires preferredHeight + spacing > 0
    requires r.Keys == m.Keys
    requires delta == preferredHeight - m[order[j]].height
    requires forall i :: 0 <= i < |order| ==> ShiftedAt(m, r, order, j, preferredHeight, delta, i)
    ensures Stacked(r, order, top, spacing)
  {
    forall i | 0 < i < |order|
      ensures FollowsPrevious(r, order, spacing, i)
    {
      assert FollowsPrevious(m, order, spacing, i);
      assert ShiftedAt(m, r, order, j, preferredHeight, delta, i);
      assert ShiftedAt(m, r, order, j, preferredHeight, delta, i - 1);
    }
    forall i | 0 <= i < |order|
      ensures r[order[i]].height + spacing > 0
    {
      assert m[order[i]].height + spacing > 0;
      assert ShiftedAt(m, r, order, j, preferredHeight, delta, i);
    }
    forall k ensures k in r <==> k in order {
      assert k in r <==> k in m;
    }
    if |order| > 0 {
      assert ShiftedAt(m, r, order, j, preferredHeight, delta, 0);
    }
  }

  /** The patch changes the content height by exactly the height change of the one item. */
  lemma PatchChangesContentHeight(m: Cache, changed: IndexPath, preferredHeight: int, delta: int,
                                  spacing: int, insets: Insets)
    requires changed in m
    ensures ContentHeight(Patched(m, changed, preferredHeight, delta), spacing, insets)
         == ContentHeight(m, spacing, insets) + preferredHeight - m[changed].height
  {
    var r := Patched(m, changed, preferredHeight, delta);
    SumHeightsChangeOne(m, r, changed);
    assert |r| == |m| by {
      assert r.Keys == m.Keys;
    }
  }
}
