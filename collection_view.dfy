/**
 * What the collection view hands a layout: the host's geometry and item counts,
 * the attributes of one item, and the invalidation context that says why the
 * layout must be redone.
 */
module CollectionView {
  import opened Wrappers
  import opened Geometry
  import opened IndexPaths
  import opened LayoutCache

  /**
   * The collection view a layout is attached to: its bounds and, for section `s`,
   * the number of items `itemCounts[s]` its data source reports.
   */
  datatype Host = Host(bounds: Rect, itemCounts: seq<nat>)

  /** The attributes of one item: its index path (absent for non-item elements) and frame. */
  datatype Attributes = Attributes(indexPath: Option<IndexPath>, frame: Rect)

  /**
   * An invalidation context: the two framework flags, the content-size adjustment
   * (whose width says the viewport width changed and whose height carries a
   * preferred-height delta), the items it invalidates, and the preferred
   * attributes the layout's own context class carries. Both layouts declare that
   * class as their context class, so every context they see is one.
   */
  datatype Context = Context(
    invalidateEverything: bool,
    invalidateDataSourceCounts: bool,
    adjustment: Size,
    invalidatedItems: set<IndexPath>,
    preferred: Option<Attributes>)

  /** The context the framework is taken to create before a layout adds anything to it. */
  const PlainContext := Context(false, false, Size(0, 0), {}, None)

  /**
   * The item a context's preferred attributes refer to, when there are preferred
   * attributes, they carry an index path, and that path is cached.
   */
  function PreferredTarget(ctx: Context, cache: Cache): (r: Option<IndexPath>)
    ensures r.Some? <==>
      ctx.preferred.Some? && ctx.preferred.value.indexPath.Some? && ctx.preferred.value.indexPath.value in cache
    ensures r.Some? ==> r == ctx.preferred.value.indexPath && r.value in cache
  {
    match ctx.preferred
    case None => None
    case Some(attributes) =>
      match attributes.indexPath
      case None => None
      case Some(path) => if path in cache then Some(path) else None
  }
}
