# Vertical list layout for a collection view

This project models the list layout of Teapot List. The layout is a collection-view layout that stacks
items of equal width from top to bottom. Every item first gets an estimated height of 10 points. When
an item later reports its preferred height, the layout patches the items at and below it in place.

The layout exists twice:

- `ListLayout` in `NSCollectionViewLayout.playground/Contents.swift`, modelled by class
  `ListLayouts.ListLayout`;
- `TestLayout` in the top-level `Contents.swift`, modelled by class `TestLayouts.TestLayout`.

Each class keeps the source's two pieces of state:

- `cachedItemAttributes`, a map from index path (section, item) to frame;
- `cachedContentBounds`, the collection-view bounds that the cached frames were computed for.

It also keeps the two settings, `verticalItemSpacing` (8) and `contentEdgeInsets` (20 on every side).

The operations work in place, as in the source:

- The full layout pass (`Prepare`), the restack (`PrepareSorted`), the invalidation dispatcher
  (`InvalidateLayout`) and its preferred-height patch (`ApplyPreferredAttributes`) are methods with
  loops.
- The content size, the two queries and the `shouldInvalidate…`/`invalidationContext…` decisions are
  functions.

Most methods are proved against a value-level specification in module `LayoutCache`. `DropStale` is specified by its own map comprehension, and `InvalidateLayout` also uses `CollectionView.PreferredTarget` to pick its branch:

- `EstimatedCache(keys, …)` is the cache that a full layout pass or a restack produces. Each key sits
  at its rank in display order.
- `Patched(m, changed, h, delta)` is the cache after the preferred-height patch.
- `Stacked(m, order, top, spacing)` is the stacking invariant. The first item starts at the top inset,
  and every next item starts one spacing below the bottom of the previous one.
- `ContentHeight` is the content-size fold: the sum of the cached heights, plus one spacing per item,
  plus the top and bottom insets.

The lemmas make the following connections:

- A full pass yields a stacked cache whose content height is the insets plus one row of 18 points per
  item.
- The patch built from an item's own preferred-attributes context keeps the cache stacked.
- The patch grows the content by exactly the context's height adjustment.
- The patch touches only the items that the context invalidates.

The host collection view is passed to each operation as a parameter: `Option<Host>`, that is, its
bounds and its item count per section. An invalidation context is a value holding:

- the two reload flags;
- the content-size adjustment;
- the invalidated items;
- the preferred attributes that the layout's own context class carries.

## Model

| member | source | states |
|---|---|---|
| IndexPaths.Enumerate | NSCollectionViewLayout.playground/Contents.swift:39-43 | the host's index paths: exactly the (section, item) with section < number of sections and item < that section's count, in strictly increasing (section, item) order |
| IndexPaths.EnumerateFrom | Contents.swift:24-28 | the `flatMap` from a given section on: the same membership restricted to later sections, in increasing order |
| IndexPaths.BeforeIsStrictTotal | NSCollectionViewLayout.playground/Contents.swift:112 | the index-path order used for sorting is irreflexive, asymmetric, transitive and total |
| IndexPaths.RankAt | NSCollectionViewLayout.playground/Contents.swift:66-74 | in an increasing sequence, the path at position i has exactly i paths before it, so the i-th row of the reduce is the path's rank |
| IndexPaths.Insert | NSCollectionViewLayout.playground/Contents.swift:112 | inserting a new path into an increasing sequence keeps it increasing, adds exactly that path, and grows it by one |
| IndexPaths.SortIndexPaths | NSCollectionViewLayout.playground/Contents.swift:112 | sorting the cached values by index path gives the cached keys, each once, in increasing order |
| LayoutCache.EstimatedCacheFromOrder | NSCollectionViewLayout.playground/Contents.swift:59-75 | a cache whose i-th path in display order has the i-th estimated frame, and that holds nothing else, is the estimated cache over its keys |
| LayoutCache.EstimatedCacheAt | NSCollectionViewLayout.playground/Contents.swift:64-74 | in the estimated cache, the i-th path has frame (left, top + i·(10 + spacing), width, 10) |
| LayoutCache.EstimatedIsStacked | NSCollectionViewLayout.playground/Contents.swift:66-74 | the frames of a full pass are stacked: the first at the top inset, each next one spacing below the bottom of the previous |
| LayoutCache.StackedIncreasing | NSCollectionViewLayout.playground/Contents.swift:131 | a stacked cache has strictly increasing y-origins in display order, which is what the patch's `y >=` guard relies on |
| LayoutCache.SumHeightsRemove | NSCollectionViewLayout.playground/Contents.swift:18-20 | the fold over the dictionary's values does not depend on their order: removing any entry subtracts its height |
| LayoutCache.SumHeightsSameHeights | NSCollectionViewLayout.playground/Contents.swift:18-20 | the height sum depends only on the keys and the heights |
| LayoutCache.SumHeightsChangeOne | NSCollectionViewLayout.playground/Contents.swift:18-20 | changing one entry's height changes the sum by the difference |
| LayoutCache.SumHeightsAlong | NSCollectionViewLayout.playground/Contents.swift:18-20 | the unordered height sum equals the heights added up in display order |
| LayoutCache.HeightsAlongRestrict | NSCollectionViewLayout.playground/Contents.swift:18-20 | the ordered sum depends only on the entries along the sequence |
| LayoutCache.StackedOrigin | NSCollectionViewLayout.playground/Contents.swift:66-74 | in a stacked cache, the i-th item starts at top + the heights above it + i spacings |
| LayoutCache.ContentHeightOfStack | NSCollectionViewLayout.playground/Contents.swift:14-30 | the content height of a stacked cache is the bottom of its last item plus one spacing plus the bottom inset; for an empty cache it is top + bottom |
| LayoutCache.StackArithmetic | NSCollectionViewLayout.playground/Contents.swift:23-28 | arithmetic helper of `ContentHeightOfStack`: it splits the count·spacing term into the spacings above the last item plus the one below it |
| LayoutCache.ContentHeightOfEstimated | NSCollectionViewLayout.playground/Contents.swift:14-30 | after a full pass, the content height is top + bottom + count·(10 + spacing) |
| LayoutCache.SumHeightsAllEstimated | NSCollectionViewLayout.playground/Contents.swift:18-20 | when every item has the estimated height, the heights sum to count·10 |
| LayoutCache.Patched | NSCollectionViewLayout.playground/Contents.swift:128-139 | the preferred-height patch keeps the key set, never changes an x or a width, and leaves every entry above the changed item's original y-origin as it was |
| LayoutCache.PatchChangesOnlyInvalid | NSCollectionViewLayout.playground/Contents.swift:128-139 | with delta = preferred − original height, the patch changes exactly the entries in the invalid set: none outside it, and (for a non-zero delta) every one inside it |
| LayoutCache.PatchWithoutChange | NSCollectionViewLayout.playground/Contents.swift:128-139 | a preferred height equal to the cached one, with delta 0, leaves the cache unchanged |
| LayoutCache.PatchShiftsByPosition | NSCollectionViewLayout.playground/Contents.swift:128-139 | on a stacked cache, in display order: items before the changed one keep their frames, the changed item takes the preferred height in place, and every later item moves down by the delta |
| LayoutCache.ShiftKeepsStacking | NSCollectionViewLayout.playground/Contents.swift:131-137 | a cache with the same keys, shifted by position like the patch with delta = preferred − original height, is stacked again over the same order |
| LayoutCache.PatchPreservesStacking | NSCollectionViewLayout.playground/Contents.swift:131-137 | with delta = preferred − original height, the patch keeps a stacked cache stacked over the same order |
| LayoutCache.PatchChangesContentHeight | NSCollectionViewLayout.playground/Contents.swift:128-139 | the patch changes the content height by exactly the changed item's height difference |
| CollectionView.PreferredTarget | NSCollectionViewLayout.playground/Contents.swift:118-121 | the guard's chain of optional bindings: it yields the preferred attributes' index path exactly when the context has preferred attributes with an index path that is cached |
| ListLayouts.ListLayout.constructor | NSCollectionViewLayout.playground/Contents.swift:9-12 | spacing 8, insets 20 on every side, zero bounds, empty cache |
| ListLayouts.ListLayout.CollectionViewContentSize | NSCollectionViewLayout.playground/Contents.swift:14-30 | zero without a host; otherwise the host's width and the content height, which is top + bottom for an empty cache |
| ListLayouts.ListLayout.Prepare | NSCollectionViewLayout.playground/Contents.swift:32-54 | without a host or with a non-empty cache, nothing changes (so a second call is a no-op); otherwise the bounds are recorded and the cache is exactly one estimated frame per index path the host reports, in display order |
| ListLayouts.ListLayout.PrepareSorted | NSCollectionViewLayout.playground/Contents.swift:59-75 | the i-th item of the given order gets frame (left, top + i·(10 + spacing), recorded width − left − right, 10); the keys are unchanged and no other entry changes |
| ListLayouts.ListLayout.LayoutAttributesForItem | NSCollectionViewLayout.playground/Contents.swift:79-81 | exactly the cached entry, or none when the path is not cached |
| ListLayouts.ListLayout.LayoutAttributesForElements | NSCollectionViewLayout.playground/Contents.swift:83-85 | exactly the cached entries whose frames intersect the rectangle, unchanged |
| ListLayouts.ListLayout.InvalidateLayout | NSCollectionViewLayout.playground/Contents.swift:95-140 | a reload empties the cache; a width adjustment adds the delta to the recorded width and restacks the same keys with estimated frames at the new width; otherwise preferred attributes for a cached item give the patched cache, and any other context empties it |
| ListLayouts.ListLayout.ApplyPreferredAttributes | NSCollectionViewLayout.playground/Contents.swift:128-139 | the `forEach` loop, in any order, yields the patched cache |
| ListLayouts.ListLayout.ShouldInvalidateForPreferred | NSCollectionViewLayout.playground/Contents.swift:147-152 | invalidate exactly when the preferred height differs from the original height |
| ListLayouts.ListLayout.InvalidationContextForPreferred | NSCollectionViewLayout.playground/Contents.swift:156-175 | the context carries the preferred attributes and an adjustment of (0, preferred − original height), and invalidates exactly the cached items at or below the preferred y-origin |
| ListLayouts.ListLayout.PreferredRoundTrip | NSCollectionViewLayout.playground/Contents.swift:156-175 | on a stacked cache, the context built for an item's preferred attributes selects that item in the invalidation; the patched cache is stacked, its content height grows by exactly the adjustment, and only invalidated items change |
| ListLayouts.ListLayout.DecliningPreferredKeepsCache | NSCollectionViewLayout.playground/Contents.swift:147-152 | when the layout declines to invalidate, the patch that the context describes would leave the cache unchanged |
| ListLayouts.ListLayout.ShouldInvalidateForBoundsChange | NSCollectionViewLayout.playground/Contents.swift:180-186 | invalidate exactly when the new width differs from the recorded width |
| ListLayouts.ListLayout.InvalidationContextForBoundsChange | NSCollectionViewLayout.playground/Contents.swift:188-193 | the adjustment brings the recorded width to the new width; it is non-zero exactly when the layout should invalidate |
| TestLayouts.TestLayout.constructor | Contents.swift:7-10 | spacing 8, insets 20 on every side, zero bounds, empty cache |
| TestLayouts.TestLayout.CollectionViewContentSize | Contents.swift:12-19 | zero without a host; otherwise the host's width and the content height, which is top + bottom for an empty cache |
| TestLayouts.TestLayout.Prepare | Contents.swift:21-43 | without a host or with a non-empty cache, nothing changes; otherwise the bounds are recorded and the cache is exactly one estimated frame per reported index path, in display order |
| TestLayouts.TestLayout.DropStale | Contents.swift:29-31 | the cache afterwards is the old cache restricted to the reported paths |
| TestLayouts.TestLayout.PlaceInOrder | Contents.swift:34-42 | the reduce over the reported paths gives each one, reused or new, its estimated frame (heights reset to 10), so the cache is the estimated cache over those paths |
| TestLayouts.TestLayout.LayoutAttributesForItem | Contents.swift:47-49 | exactly the cached entry, or none |
| TestLayouts.TestLayout.LayoutAttributesForElements | Contents.swift:51-53 | exactly the cached entries whose frames intersect the rectangle, unchanged |
| TestLayouts.TestLayout.InvalidateLayout | Contents.swift:63-86 | a reload or any non-zero width adjustment empties the cache; otherwise preferred attributes for a cached item give the patched cache, and any other context empties it; the recorded bounds never change |
| TestLayouts.TestLayout.ApplyPreferredAttributes | Contents.swift:78-85 | the `forEach` loop, in any order, yields the patched cache |
| TestLayouts.TestLayout.ShouldInvalidateForPreferred | Contents.swift:91-93 | invalidate exactly when the width or the height differs, so in particular whenever the height does |
| TestLayouts.TestLayout.InvalidationContextForPreferred | Contents.swift:96-111 | the context carries the preferred attributes and an adjustment of (0, preferred − original height), and invalidates exactly the cached items at or below the preferred y-origin |
| TestLayouts.TestLayout.PreferredRoundTrip | Contents.swift:96-111 | the context has a zero width adjustment, so it reaches the patch path for the item; the patched cache is stacked, its content height grows by exactly the adjustment, and only invalidated items change |
| TestLayouts.TestLayout.DecliningPreferredKeepsCache | Contents.swift:91-93 | when the sizes agree, the patch that the context describes would leave the cache unchanged |
| TestLayouts.TestLayout.ShouldInvalidateForBoundsChange | Contents.swift:115-117 | invalidate exactly when the new width differs from the recorded width |
| TestLayouts.TestLayout.InvalidationContextForBoundsChange | Contents.swift:119-123 | the adjustment brings the recorded width to the new width; it is non-zero exactly when the layout should invalidate |
| Scenarios.ThreeItemsEnumerate | NSCollectionViewLayout.playground/Contents.swift:39-43 | one section of three items enumerates as (0,0), (0,1), (0,2) |
| Scenarios.ThreeItemLayout | NSCollectionViewLayout.playground/Contents.swift:59-75 | three items in a 300-point viewport get frames (20,20,260,10), (20,38,260,10), (20,56,260,10) |
| Scenarios.LaidContentHeight | NSCollectionViewLayout.playground/Contents.swift:14-30 | those three items give a content height of 94 |
| Scenarios.MiddleItemGrows | NSCollectionViewLayout.playground/Contents.swift:128-139 | when the middle item grows from 10 to 34, the bottom item moves from 56 to 80 and the content height becomes 118 |

## Left out

- The Cocoa glue around the layout is left out, being view code rather than layout logic. This covers `TextFieldItem`, the data source, the view controller and the playground live view, along with their text measurement.
- The `print` tracing is left out.
- The `super.invalidateLayout` and `super.invalidationContext` calls, and `invalidateItems(at:)`, are framework bookkeeping outside these files. For the last, the model keeps only the computed set of invalidated items.
- The collection view is a parameter of each operation, not a weak reference held by the layout.
- `CGFloat` coordinates are exact integers. Rounding and non-integral sizes are not modelled.
- `NSRect.intersects` is replaced by `Geometry.Intersects`: both rectangles have positive area and their interiors overlap on both axes. Foundation's own implementation is not part of this model.
- `NSCollectionViewLayoutAttributes` records are objects shared by reference. The model stores frames as values in the map, updated by key. As a result, it does not capture these things:
  - One record being reachable from two keys. The source never creates that.
  - The identity of a reused record in `TestLayout.prepare()`.
  - The `indexPath!` force-unwraps in the playground's sort. Every cached record carries its own key there.
- `ApplyPreferredAttributes` reads the changed item's y-origin from the cache on every step. In the source, `originalAttributes` is the same record, and its y-origin is never changed by the loop.
- The index-path sort at `NSCollectionViewLayout.playground/Contents.swift:112` is modelled by its result only (`SortIndexPaths`: the keys in increasing order). The standard library's sorting algorithm is not part of this model.
- The failed downcast at `Contents.swift:98-101` and the force cast `as! InvalidationContext` at `NSCollectionViewLayout.playground/Contents.swift:160` are not modelled. Both layouts declare `InvalidationContext` as their invalidation context class (`Contents.swift:61`, `NSCollectionViewLayout.playground/Contents.swift:93`), so the framework always hands them that class, and the failing branches cannot be reached. `InvalidationContextForPreferred` models only the successful cast. In `InvalidateLayout`, `preferred == None` stands for a context without preferred attributes, the case that the guard at `NSCollectionViewLayout.playground/Contents.swift:118-124` sends to the cache-clearing branch.
- The context that `super.invalidationContext(forPreferredLayoutAttributes:…)` and `super.invalidationContext(forBoundsChange:)` return is taken to be a fresh context with both reload flags off, a zero adjustment, no invalidated items and no preferred attributes (`CollectionView.PlainContext`). This framework behaviour is not part of this model. Three contracts rest on it: the zero width adjustment in `TestLayouts.TestLayout.PreferredRoundTrip`, the cleared reload flags in both `InvalidationContextForPreferred` functions, and the cleared reload flags and absent preferred attributes in both `InvalidationContextForBoundsChange` functions.
- `TestLayouts.TestLayout.Prepare`: the prune loop (`Contents.swift:29-31`) runs only after the guard has established that the cache is empty, so it never removes anything. It is modelled as written, in `DropStale`.
- `ListLayouts.ListLayout.InvalidateLayout`: on a width change, the playground restacks every item through `prepare(sortedItemAttributes:)`. That call also resets every height to the estimate of 10, so a width change forgets preferred heights. The model follows the code.
- Content height: the source adds one spacing per item (`count · spacing`), which leaves one spacing below the last item. Three items therefore give 94 points, where spacing only between items would give 86 (`Scenarios.LaidContentHeight`). The model follows the code.
- `PreferredRoundTrip` requires that the preferred attributes keep the item's y-origin, and that the preferred height plus the spacing is positive. Those are the cases in which the patch keeps the stack ordered. A preferred height that makes an item "negative" lies outside what the layout is built for.
