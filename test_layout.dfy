/**
 * The top-level page's list layout. It stacks items as the playground's layout
 * does, but prunes stale cache keys in its full layout pass, empties the cache on
 * any width change, and compares whole sizes when deciding whether preferred
 * attributes call for a new layout.
 */
module TestLayouts {
  import opened Wrappers
  import opened Geometry
  import opened IndexPaths
  import opened LayoutCache
  import opened CollectionView

  class TestLayout {
    var verticalItemSpacing: int
    var contentEdgeInsets: Insets
    /** The collection view bounds the cached frames were computed for. */
    var cachedContentBounds: Rect
    /** The frame of every item laid out so far, by index path. */
    var cachedItemAttributes: Cache

    constructor ()
      ensures verticalItemSpacing == 8 && contentEdgeInsets == Insets(20, 20, 20, 20)
      ensures cachedContentBounds == ZeroRect && cachedItemAttributes == map[]
    {
      verticalItemSpacing := 8;
      contentEdgeInsets := Insets(20, 20, 20, 20);
      cachedContentBounds := ZeroRect;
      cachedItemAttributes := map[];
    }

    /** The width of every item: the recorded bounds' width less the side insets. */
    function ItemWidth(): int
      reads this
    {
      cachedContentBounds.width - contentEdgeInsets.left - contentEdgeInsets.right
    }

    /**
     * The size of the scrollable content: the host's width, and the cached heights
     * plus one spacing per item plus the vertical insets. Without a host it is zero.
     */
    ghost function CollectionViewContentSize(host: Option<Host>): (r: Size)
      reads this
      ensures host.None? ==> r == Size(0, 0)
      ensures host.Some? ==> r.width == host.value.bounds.width
      ensures host.Some? && cachedItemAttributes == map[] ==>
        r.height == contentEdgeInsets.top + contentEdgeInsets.bottom
    {
      match host
      case None => Size(0, 0)
      case Some(collectionView) =>
        Size(collectionView.bounds.width, ContentHeight(cachedItemAttributes, verticalItemSpacing, contentEdgeInsets))
    }

    /**
     * The full layout pass. It runs only when there is a host and the cache is
     * empty: it drops cached items the host no longer reports, records the host's
     * bounds, and gives every reported item, reused or new, its estimated frame in
     * display order.
     */
    method Prepare(host: Option<Host>)
      modifies this`cachedItemAttributes, this`cachedContentBounds
      ensures host.None? || old(cachedItemAttributes) != map[] ==>
        cachedItemAttributes == old(cachedItemAttributes) && cachedContentBounds == old(cachedContentBounds)
      ensures host.Some? && old(cachedItemAttributes) == map[] ==>
        && cachedContentBounds == host.value.bounds
        && cachedItemAttributes == EstimatedCache(Elements(Enumerate(host.value.itemCounts)),
                                                  contentEdgeInsets, ItemWidth(), verticalItemSpacing)
    {
      if host.Some? && cachedItemAttributes == map[] {
        var collectionView := host.value;
        var indexPaths := Enumerate(collectionView.itemCounts);
        assert Increasing(indexPaths);
        DropStale(indexPaths);
        cachedContentBounds := collectionView.bounds;
        var width := collectionView.bounds.width - contentEdgeInsets.left - contentEdgeInsets.right;
        PlaceInOrder(indexPaths, width);
        assert width == ItemWidth();
        ghost var keys := Elements(Enumerate(host.value.itemCounts));
        assert keys == Elements(indexPaths);
        assert cachedItemAttributes == EstimatedCache(keys, contentEdgeInsets, ItemWidth(), verticalItemSpacing);
      }
    }

    /** Drops the cached items whose index paths are not among `indexPaths`. */
    method DropStale(indexPaths: seq<IndexPath>)
      modifies this`cachedItemAttributes
      ensures cachedItemAttributes == map k | k in old(cachedItemAttributes) && k in indexPaths :: old(cachedItemAttributes)[k]
      ensures forall k :: k in cachedItemAttributes ==> k in indexPaths
    {
      var stale := set k | k in cachedItemAttributes && k !in indexPaths;
      while stale != {}
        invariant stale <= cachedItemAttributes.Keys
        invariant forall k :: k in stale ==> k !in indexPaths
        invariant cachedItemAttributes ==
          map k | k in old(cachedItemAttributes) && (k in indexPaths || k in stale) :: old(cachedItemAttributes)[k]
        decreases |stale|
      {
        var k :| k in stale;
        cachedItemAttributes := cachedItemAttributes - {k};
        stale := stale - {k};
      }
    }

    /**
     * The reduce over the reported paths: each item, reused from the cache or new,
     * gets its whole frame overwritten with the next estimated row.
     */
    method PlaceInOrder(indexPaths: seq<IndexPath>, width: int)
      requires Increasing(indexPaths)
      requires forall k :: k in cachedItemAttributes ==> k in indexPaths
      modifies this`cachedItemAttributes
      ensures cachedItemAttributes == EstimatedCache(Elements(indexPaths), contentEdgeInsets, width, verticalItemSpacing)
    {
      var x, y := contentEdgeInsets.left, contentEdgeInsets.top;
      var i := 0;
      while i < |indexPaths|
        invariant 0 <= i <= |indexPaths|
        invariant x == contentEdgeInsets.left
        invariant y == contentEdgeInsets.top + i * (EstimatedHeight + verticalItemSpacing)
        invariant forall k :: k in cachedItemAttributes ==> k in indexPaths
        invariant forall j :: 0 <= j < i ==>
          indexPaths[j] in cachedItemAttributes &&
          cachedItemAttributes[indexPaths[j]] == EstimatedFrame(j, contentEdgeInsets, width, verticalItemSpacing)
      {
        var indexPath := indexPaths[i];
        forall j | 0 <= j < i ensures indexPaths[j] != indexPath {
          assert Before(indexPaths[j], indexPaths[i]);
        }
        // A cached record is reused, but its whole frame is overwritten.
        var attributes := if indexPath in cachedItemAttributes then cachedItemAttributes[indexPath] else ZeroRect;
        var size := Size(width, EstimatedHeight);
        attributes := attributes.(x := x, y := y, width := size.width, height := size.height);
        assert attributes == EstimatedFrame(i, contentEdgeInsets, width, verticalItemSpacing);
        cachedItemAttributes := cachedItemAttributes[indexPath := attributes];
        NextRow(i, EstimatedHeight + verticalItemSpacing);
        y := y + size.height + verticalItemSpacing;
        i := i + 1;
      }
      forall k ensures k in cachedItemAttributes <==> k in indexPaths {
        if k in indexPaths {
          var j :| 0 <= j < |indexPaths| && indexPaths[j] == k;
        }
      }
      EstimatedCacheFromOrder(cachedItemAttributes, indexPaths, contentEdgeInsets, width, verticalItemSpacing);
      assert cachedItemAttributes.Keys == Elements(indexPaths);
    }

    /** The cached frame of the item at `indexPath`, if it has been laid out. */
    function LayoutAttributesForItem(indexPath: IndexPath): (r: Option<Rect>)
      reads this
      ensures r.Some? <==> indexPath in cachedItemAttributes
      ensures r.Some? ==> r.value == cachedItemAttributes[indexPath]
    {
      if indexPath in cachedItemAttributes then Some(cachedItemAttributes[indexPath]) else None
    }

    /** The cached entries whose frames intersect `rect`. */
    function LayoutAttributesForElements(rect: Rect): (r: Cache)
      reads this
      ensures forall k :: k in r <==> k in cachedItemAttributes && Intersects(cachedItemAttributes[k], rect)
      ensures forall k :: k in r ==> r[k] == cachedItemAttributes[k]
    {
      map k | k in cachedItemAttributes && Intersects(cachedItemAttributes[k], rect) :: cachedItemAttributes[k]
    }

    /**
     * Reacts to an invalidation context. A reload (everything or the data source
     * counts) or any width adjustment empties the cache. Otherwise, preferred
     * attributes for a cached item patch the cache in place; any other context
     * empties it. The recorded bounds never change here.
     */
    method InvalidateLayout(context: Context)
      modifies this`cachedItemAttributes
      ensures context.invalidateEverything || context.invalidateDataSourceCounts || context.adjustment.width != 0 ==>
        cachedItemAttributes == map[]
      ensures !context.invalidateEverything && !context.invalidateDataSourceCounts && context.adjustment.width == 0 ==>
        cachedItemAttributes == match PreferredTarget(context, old(cachedItemAttributes))
          case None => map[]
          case Some(path) =>
            Patched(old(cachedItemAttributes), path, context.preferred.value.frame.height, context.adjustment.height)
    {
      if context.invalidateEverything || context.invalidateDataSourceCounts || context.adjustment.width != 0 {
        cachedItemAttributes := map[];
        return;
      }
      var target := PreferredTarget(context, cachedItemAttributes);
      if target.None? {
        cachedItemAttributes := map[];
        return;
      }
      var indexPath := target.value;
      var preferredAttributes := context.preferred.value;
      ApplyPreferredAttributes(indexPath, preferredAttributes.frame.height, context.adjustment.height);
    }

    /**
     * The in-place patch for preferred attributes, item by item in no particular
     * order: each item at or below the changed item's original y-origin either
     * takes the preferred height (the changed item) or moves down by `delta`.
     */
    method ApplyPreferredAttributes(indexPath: IndexPath, preferredHeight: int, delta: int)
      requires indexPath in cachedItemAttributes
      modifies this`cachedItemAttributes
      ensures cachedItemAttributes == Patched(old(cachedItemAttributes), indexPath, preferredHeight, delta)
    {
      ghost var original := cachedItemAttributes;
      var remaining := cachedItemAttributes.Keys;
      while remaining != {}
        invariant remaining <= original.Keys
        invariant cachedItemAttributes.Keys == original.Keys
        invariant cachedItemAttributes[indexPath].y == original[indexPath].y
        invariant forall k :: k in remaining ==> cachedItemAttributes[k] == original[k]
        invariant forall k :: k in original && k !in remaining ==>
          cachedItemAttributes[k] == PatchEntry(k, original[k], indexPath, original[indexPath].y, preferredHeight, delta)
        decreases |remaining|
      {
        var k :| k in remaining;
        var attributes := cachedItemAttributes[k];
        // The changed item's record is read afresh; its y-origin never moves.
        var originalY := cachedItemAttributes[indexPath].y;
        if attributes.y >= originalY {
          if k != indexPath {
            cachedItemAttributes := cachedItemAttributes[k := attributes.(y := attributes.y + delta)];
          } else {
            cachedItemAttributes := cachedItemAttributes[k := attributes.(height := preferredHeight)];
          }
        }
        remaining := remaining - {k};
      }
    }

    /** Whether preferred attributes call for a new layout: any change of size does. */
    function ShouldInvalidateForPreferred(preferred: Attributes, original: Attributes): (r: bool)
      ensures r <==> preferred.frame.width != original.frame.width || preferred.frame.height != original.frame.height
      ensures preferred.frame.height != original.frame.height ==> r
    {
      Size(preferred.frame.width, preferred.frame.height) != Size(original.frame.width, original.frame.height)
    }

    /**
     * The context for preferred attributes: it carries them, a height adjustment of
     * preferred height − original height, and invalidates every cached item at or
     * below the preferred y-origin.
     */
    function InvalidationContextForPreferred(preferred: Attributes, original: Attributes): (r: Context)
      reads this
      ensures r.preferred == Some(preferred)
      ensures r.adjustment == Size(0, preferred.frame.height - original.frame.height)
      ensures forall k :: k in r.invalidatedItems <==>
        k in cachedItemAttributes && cachedItemAttributes[k].y >= preferred.frame.y
      ensures !r.invalidateEverything && !r.invalidateDataSourceCounts
    {
      PlainContext.(
        preferred := Some(preferred),
        adjustment := Size(0, preferred.frame.height - original.frame.height),
        invalidatedItems := InvalidSet(cachedItemAttributes, preferred.frame.y))
    }

    /**
     * The round trip of a preferred height through the context: on a stacked cache,
     * the context built for an item's preferred attributes makes the invalidation
     * take the patch path (its width adjustment is zero), the patched cache is still
     * stacked, the content grows by exactly the context's height adjustment, and only
     * invalidated items change.
     */
    lemma PreferredRoundTrip(preferred: Attributes, original: Attributes, order: seq<IndexPath>, j: int)
      requires Stacked(cachedItemAttributes, order, contentEdgeInsets.top, verticalItemSpacing)
      requires 0 <= j < |order|
      requires original == Attributes(Some(order[j]), cachedItemAttributes[order[j]])
      requires preferred.indexPath == original.indexPath && preferred.frame.y == original.frame.y
      requires preferred.frame.height + verticalItemSpacing > 0
      ensures var context := InvalidationContextForPreferred(preferred, original);
        && context.adjustment.width == 0
        && PreferredTarget(context, cachedItemAttributes) == Some(order[j])
        && var patched := Patched(cachedItemAttributes, order[j], preferred.frame.height, context.adjustment.height);
        && Stacked(patched, order, contentEdgeInsets.top, verticalItemSpacing)
        && ContentHeight(patched, verticalItemSpacing, contentEdgeInsets)
           == ContentHeight(cachedItemAttributes, verticalItemSpacing, contentEdgeInsets) + context.adjustment.height
        && forall k :: k in cachedItemAttributes && patched[k] != cachedItemAttributes[k] ==> k in context.invalidatedItems
    {
      var m := cachedItemAttributes;
      var changed := order[j];
      var context := InvalidationContextForPreferred(preferred, original);
      var delta := preferred.frame.height - m[changed].height;
      assert context.adjustment.height == delta;
      assert PreferredTarget(context, m) == Some(changed);
      var patched := Patched(m, changed, preferred.frame.height, delta);
      PatchPreservesStacking(m, order, contentEdgeInsets.top, verticalItemSpacing, j, preferred.frame.height);
      assert Stacked(patched, order, contentEdgeInsets.top, verticalItemSpacing);
      PatchChangesContentHeight(m, changed, preferred.frame.height, delta, verticalItemSpacing, contentEdgeInsets);
      PatchChangesOnlyInvalid(m, changed, preferred.frame.height);
      assert context.invalidatedItems == InvalidSet(m, m[changed].y);
    }

    /**
     * Declining to invalidate for preferred attributes loses nothing: when the
     * sizes agree, the patch the context would describe leaves the cache as it is.
     */
    lemma DecliningPreferredKeepsCache(preferred: Attributes, original: Attributes, path: IndexPath)
      requires path in cachedItemAttributes && original.frame == cachedItemAttributes[path]
      requires !ShouldInvalidateForPreferred(preferred, original)
      ensures var context := InvalidationContextForPreferred(preferred, original);
        Patched(cachedItemAttributes, path, preferred.frame.height, context.adjustment.height) == cachedItemAttributes
    {
      PatchWithoutChange(cachedItemAttributes, path);
    }

    /** Whether new bounds call for a new layout: only a change of width does. */
    function ShouldInvalidateForBoundsChange(newBounds: Rect): (r: bool)
      reads this
      ensures r <==> newBounds.width != cachedContentBounds.width
    {
      newBounds.width != cachedContentBounds.width
    }

    /**
     * The context for new bounds: a width adjustment of new width − recorded width.
     * It is non-zero exactly when the bounds change calls for a new layout, and then
     * the invalidation empties the cache.
     */
    function InvalidationContextForBoundsChange(newBounds: Rect): (r: Context)
      reads this
      ensures cachedContentBounds.width + r.adjustment.width == newBounds.width
      ensures r.adjustment.width != 0 <==> ShouldInvalidateForBoundsChange(newBounds)
      ensures !r.invalidateEverything && !r.invalidateDataSourceCounts && r.preferred.None?
    {
      PlainContext.(adjustment := Size(newBounds.width - cachedContentBounds.width, 0))
    }
  }
}
