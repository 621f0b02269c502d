/**
 * The playground's list layout: items of equal width stacked from top to bottom,
 * each with an estimated height until the item reports its preferred height.
 */
module ListLayouts {
  import opened Wrappers
  import opened Geometry
  import opened IndexPaths
  import opened LayoutCache
  import opened CollectionView

  class ListLayout {
    var verticalItemSpacing: int
    var contentEdgeInsets: Insets
    /** The collection view bounds the cached frames were computed for. */
    var cachedContentBounds: Rect
    /** The frame of every item laid out so far, by index path. */
    var cachedItemAttributes: Cache

    constructor ()
      ensures verticalItemSpacing == 8 && contentEdgeInsets == Insets(20, 20, 20, 20)
      ensures cachedContentBounds == ZeroRect && cachedItemAttributes == map[]
    {
      verticalItemSpacing := 8;
      contentEdgeInsets := Insets(20, 20, 20, 20);
      cachedContentBounds := ZeroRect;
      cachedItemAttributes := map[];
    }

    /** The width of every item: the recorded bounds' width less the side insets. */
    function ItemWidth(): int
      reads this
    {
      cachedContentBounds.width - contentEdgeInsets.left - contentEdgeInsets.right
    }

    /**
     * The size of the scrollable content: the host's width, and the cached heights
     * plus one spacing per item plus the vertical insets. Without a host it is zero.
     */
    ghost function CollectionViewContentSize(host: Option<Host>): (r: Size)
      reads this
      ensures host.None? ==> r == Size(0, 0)
      ensures host.Some? ==> r.width == host.value.bounds.width
      ensures host.Some? && cachedItemAttributes == map[] ==>
        r.height == contentEdgeInsets.top + contentEdgeInsets.bottom
    {
      match host
      case None => Size(0, 0)
      case Some(collectionView) =>
        Size(collectionView.bounds.width, ContentHeight(cachedItemAttributes, verticalItemSpacing, contentEdgeInsets))
    }

    /**
     * The full layout pass. It runs only when there is a host and the cache is
     * empty: it records the host's bounds and caches every reported item at its
     * estimated frame in display order.
     */
    method Prepare(host: Option<Host>)
      modifies this`cachedItemAttributes, this`cachedContentBounds
      ensures host.None? || old(cachedItemAttributes) != map[] ==>
        cachedItemAttributes == old(cachedItemAttributes) && cachedContentBounds == old(cachedContentBounds)
      ensures host.Some? && old(cachedItemAttributes) == map[] ==>
        && cachedContentBounds == host.value.bounds
        && cachedItemAttributes == EstimatedCache(Elements(Enumerate(host.value.itemCounts)),
                                                  contentEdgeInsets, ItemWidth(), verticalItemSpacing)
    {
      if host.None? || cachedItemAttributes != map[] {
        return;
      }
      var collectionView := host.value;
      var indexPaths := Enumerate(collectionView.itemCounts);
      assert Increasing(indexPaths);
      ghost var keys := Elements(Enumerate(collectionView.itemCounts));
      assert keys == Elements(indexPaths);
      cachedContentBounds := collectionView.bounds;

      // Enter every reported path with a zero frame; the restack below places it.
      var i := 0;
      while i < |indexPaths|
        invariant 0 <= i <= |indexPaths|
        invariant cachedContentBounds == collectionView.bounds
        invariant forall k :: k in cachedItemAttributes <==> k in indexPaths[..i]
      {
        cachedItemAttributes := cachedItemAttributes[indexPaths[i] := ZeroRect];
        i := i + 1;
      }
      assert indexPaths[..i] == indexPaths;
      PrepareSorted(indexPaths);
      EstimatedCacheFromOrder(cachedItemAttributes, indexPaths, contentEdgeInsets, ItemWidth(), verticalItemSpacing);
      assert cachedItemAttributes.Keys == keys;
    }

    /**
     * Gives the items of `sorted`, already cached and listed in display order, the
     * estimated frames: the i-th one at the left inset, `i` rows below the top
     * inset, as wide as the recorded bounds allow and of the estimated height.
     */
    method PrepareSorted(sorted: seq<IndexPath>)
      requires Increasing(sorted)
      requires forall i :: 0 <= i < |sorted| ==> sorted[i] in cachedItemAttributes
      modifies this`cachedItemAttributes
      ensures cachedItemAttributes.Keys == old(cachedItemAttributes).Keys
      ensures forall i :: 0 <= i < |sorted| ==>
        cachedItemAttributes[sorted[i]] == EstimatedFrame(i, contentEdgeInsets, ItemWidth(), verticalItemSpacing)
      ensures forall k :: k in old(cachedItemAttributes) && k !in sorted ==>
        cachedItemAttributes[k] == old(cachedItemAttributes)[k]
    {
      var width := cachedContentBounds.width - contentEdgeInsets.left - contentEdgeInsets.right;
      var x, y := contentEdgeInsets.left, contentEdgeInsets.top;
      var i := 0;
      while i < |sorted|
        invariant 0 <= i <= |sorted|
        invariant x == contentEdgeInsets.left
        invariant y == contentEdgeInsets.top + i * (EstimatedHeight + verticalItemSpacing)
        invariant cachedItemAttributes.Keys == old(cachedItemAttributes).Keys
        invariant forall j :: 0 <= j < i ==>
          cachedItemAttributes[sorted[j]] == EstimatedFrame(j, contentEdgeInsets, width, verticalItemSpacing)
        invariant forall k :: k in old(cachedItemAttributes) && k !in sorted[..i] ==>
          cachedItemAttributes[k] == old(cachedItemAttributes)[k]
      {
        var size := Size(width, EstimatedHeight);
        forall j | 0 <= j < i ensures sorted[j] != sorted[i] {
          assert Before(sorted[j], sorted[i]);
        }
        assert Rect(x, y, size.width, size.height) == EstimatedFrame(i, contentEdgeInsets, width, verticalItemSpacing);
        cachedItemAttributes := cachedItemAttributes[sorted[i] := Rect(x, y, size.width, size.height)];
        assert sorted[..i + 1] == sorted[..i] + [sorted[i]];
        NextRow(i, EstimatedHeight + verticalItemSpacing);
        y := y + size.height + verticalItemSpacing;
        i := i + 1;
      }
      assert sorted[..i] == sorted;
    }

    /** The cached frame of the item at `indexPath`, if it has been laid out. */
    function LayoutAttributesForItem(indexPath: IndexPath): (r: Option<Rect>)
      reads this
      ensures r.Some? <==> indexPath in cachedItemAttributes
      ensures r.Some? ==> r.value == cachedItemAttributes[indexPath]
    {
      if indexPath in cachedItemAttributes then Some(cachedItemAttributes[indexPath]) else None
    }

    /** The cached entries whose frames intersect `rect`. */
    function LayoutAttributesForElements(rect: Rect): (r: Cache)
      reads this
      ensures forall k :: k in r <==> k in cachedItemAttributes && Intersects(cachedItemAttributes[k], rect)
      ensures forall k :: k in r ==> r[k] == cachedItemAttributes[k]
    {
      map k | k in cachedItemAttributes && Intersects(cachedItemAttributes[k], rect) :: cachedItemAttributes[k]
    }

    /**
     * Reacts to an invalidation context. A reload (everything or the data source
     * counts) empties the cache. A width adjustment records the new width and lays
     * every cached item out again in display order. Otherwise, preferred attributes
     * for a cached item patch the cache in place; any other context empties it.
     */
    method InvalidateLayout(context: Context)
      modifies this`cachedItemAttributes, this`cachedContentBounds
      ensures context.invalidateEverything || context.invalidateDataSourceCounts ==>
        cachedItemAttributes == map[] && cachedContentBounds == old(cachedContentBounds)
      ensures !context.invalidateEverything && !context.invalidateDataSourceCounts && context.adjustment.width != 0 ==>
        && cachedContentBounds == old(cachedContentBounds).(width := old(cachedContentBounds).width + context.adjustment.width)
        && cachedItemAttributes == EstimatedCache(old(cachedItemAttributes).Keys, contentEdgeInsets, ItemWidth(), verticalItemSpacing)
      ensures !context.invalidateEverything && !context.invalidateDataSourceCounts && context.adjustment.width == 0 ==>
        && cachedContentBounds == old(cachedContentBounds)
        && cachedItemAttributes == match PreferredTarget(context, old(cachedItemAttributes))
             case None => map[]
             case Some(path) =>
               Patched(old(cachedItemAttributes), path, context.preferred.value.frame.height, context.adjustment.height)
    {
      if context.invalidateEverything || context.invalidateDataSourceCounts {
        cachedItemAttributes := map[];
        return;
      }

      if context.adjustment.width != 0 {
        cachedContentBounds := cachedContentBounds.(width := cachedContentBounds.width + context.adjustment.width);
        var sorted := SortIndexPaths(cachedItemAttributes.Keys);
        PrepareSorted(sorted);
        EstimatedCacheFromOrder(cachedItemAttributes, sorted, contentEdgeInsets, ItemWidth(), verticalItemSpacing);
        return;
      }

      var target := PreferredTarget(context, cachedItemAttributes);
      if target.None? {
        cachedItemAttributes := map[];
        return;
      }
      var indexPath := target.value;
      var preferredAttributes := context.preferred.value;
      ApplyPreferredAttributes(indexPath, preferredAttributes.frame.height, context.adjustment.height);
    }

    /**
     * The in-place patch for preferred attributes, item by item in no particular
     * order: each item at or below the changed item's original y-origin either
     * takes the preferred height (the changed item) or moves down by `delta`.
     */
    method ApplyPreferredAttributes(indexPath: IndexPath, preferredHeight: int, delta: int)
      requires indexPath in cachedItemAttributes
      modifies this`cachedItemAttributes
      ensures cachedItemAttributes == Patched(old(cachedItemAttributes), indexPath, preferredHeight, delta)
    {
      ghost var original := cachedItemAttributes;
      var remaining := cachedItemAttributes.Keys;
      while remaining != {}
        invariant remaining <= original.Keys
        invariant cachedItemAttributes.Keys == original.Keys
        invariant cachedItemAttributes[indexPath].y == original[indexPath].y
        invariant forall k :: k in remaining ==> cachedItemAttributes[k] == original[k]
        invariant forall k :: k in original && k !in remaining ==>
          cachedItemAttributes[k] == PatchEntry(k, original[k], indexPath, original[indexPath].y, preferredHeight, delta)
        decreases |remaining|
      {
        var k :| k in remaining;
        var attributes := cachedItemAttributes[k];
        // The changed item's record is read afresh; its y-origin never moves.
        var originalY := cachedItemAttributes[indexPath].y;
        if attributes.y >= originalY {
          if k == indexPath {
            cachedItemAttributes := cachedItemAttributes[k := attributes.(height := preferredHeight)];
          } else {
            cachedItemAttributes := cachedItemAttributes[k := attributes.(y := attributes.y + delta)];
          }
        }
        remaining := remaining - {k};
      }
    }

    /** Whether preferred attributes call for a new layout: only a change of height does. */
    function ShouldInvalidateForPreferred(preferred: Attributes, original: Attributes): (r: bool)
      ensures r <==> preferred.frame.height != original.frame.height
    {
      preferred.frame.height != original.frame.height
    }

    /**
     * The context for preferred attributes: it carries them, a height adjustment of
     * preferred height − original height, and invalidates every cached item at or
     * below the preferred y-origin.
     */
    function InvalidationContextForPreferred(preferred: Attributes, original: Attributes): (r: Context)
      reads this
      ensures r.preferred == Some(preferred)
      ensures r.adjustment == Size(0, preferred.frame.height - original.frame.height)
      ensures forall k :: k in r.invalidatedItems <==>
        k in cachedItemAttributes && cachedItemAttributes[k].y >= preferred.frame.y
      ensures !r.invalidateEverything && !r.invalidateDataSourceCounts
    {
      PlainContext.(
        preferred := Some(preferred),
        adjustment := Size(0, preferred.frame.height - original.frame.height),
        invalidatedItems := InvalidSet(cachedItemAttributes, preferred.frame.y))
    }

    /**
     * The round trip of a preferred height through the context: on a stacked cache,
     * the context built for an item's preferred attributes makes the invalidation
     * take the patch path, the patched cache is still stacked, the content grows by
     * exactly the context's height adjustment, and only invalidated items change.
     */
    lemma PreferredRoundTrip(preferred: Attributes, original: Attributes, order: seq<IndexPath>, j: int)
      requires Stacked(cachedItemAttributes, order, contentEdgeInsets.top, verticalItemSpacing)
      requires 0 <= j < |order|
      requires original == Attributes(Some(order[j]), cachedItemAttributes[order[j]])
      requires preferred.indexPath == original.indexPath && preferred.frame.y == original.frame.y
      requires preferred.frame.height + verticalItemSpacing > 0
      ensures var context := InvalidationContextForPreferred(preferred, original);
        && PreferredTarget(context, cachedItemAttributes) == Some(order[j])
        && var patched := Patched(cachedItemAttributes, order[j], preferred.frame.height, context.adjustment.height);
        && Stacked(patched, order, contentEdgeInsets.top, verticalItemSpacing)
        && ContentHeight(patched, verticalItemSpacing, contentEdgeInsets)
           == ContentHeight(cachedItemAttributes, verticalItemSpacing, contentEdgeInsets) + context.adjustment.height
        && forall k :: k in cachedItemAttributes && patched[k] != cachedItemAttributes[k] ==> k in context.invalidatedItems
    {
      var m := cachedItemAttributes;
      var changed := order[j];
      var context := InvalidationContextForPreferred(preferred, original);
      var delta := preferred.frame.height - m[changed].height;
      assert context.adjustment.height == delta;
      assert PreferredTarget(context, m) == Some(changed);
      var patched := Patched(m, changed, preferred.frame.height, delta);
      PatchPreservesStacking(m, order, contentEdgeInsets.top, verticalItemSpacing, j, preferred.frame.height);
      assert Stacked(patched, order, contentEdgeInsets.top, verticalItemSpacing);
      PatchChangesContentHeight(m, changed, preferred.frame.height, delta, verticalItemSpacing, contentEdgeInsets);
      PatchChangesOnlyInvalid(m, changed, preferred.frame.height);
      assert context.invalidatedItems == InvalidSet(m, m[changed].y);
    }

    /**
     * Declining to invalidate for preferred attributes loses nothing: when the
     * heights agree, the patch the context would describe leaves the cache as it is.
     */
    lemma DecliningPreferredKeepsCache(preferred: Attributes, original: Attributes, path: IndexPath)
      requires path in cachedItemAttributes && original.frame == cachedItemAttributes[path]
      requires !ShouldInvalidateForPreferred(preferred, original)
      ensures var context := InvalidationContextForPreferred(preferred, original);
        Patched(cachedItemAttributes, path, preferred.frame.height, context.adjustment.height) == cachedItemAttributes
    {
      PatchWithoutChange(cachedItemAttributes, path);
    }

    /** Whether new bounds call for a new layout: only a change of width does. */
    function ShouldInvalidateForBoundsChange(newBounds: Rect): (r: bool)
      reads this
      ensures r <==> newBounds.width != cachedContentBounds.width
    {
      newBounds.width != cachedContentBounds.width
    }

    /**
     * The context for new bounds: a width adjustment that brings the recorded width
     * to the new width. It is non-zero exactly when the bounds change calls for a
     * new layout, and it triggers neither reload flag.
     */
    function InvalidationContextForBoundsChange(newBounds: Rect): (r: Context)
      reads this
      ensures cachedContentBounds.width + r.adjustment.width == newBounds.width
      ensures r.adjustment.width != 0 <==> ShouldInvalidateForBoundsChange(newBounds)
      ensures !r.invalidateEverything && !r.invalidateDataSourceCounts && r.preferred.None?
    {
      PlainContext.(adjustment := Size(newBounds.width - cachedContentBounds.width, 0))
    }
  }
}
