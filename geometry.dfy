/**
 * Rectangles, sizes and edge insets. Coordinates are exact integers in place of
 * the toolkit's floating-point values, so every sum in the layout is exact.
 */
module Geometry {

  /** A rectangle given by its origin (x, y) and its size (width, height). */
  datatype Rect = Rect(x: int, y: int, width: int, height: int)

  datatype Size = Size(width: int, height: int)

  datatype Insets = Insets(top: int, left: int, bottom: int, right: int)

  /** The rectangle at the origin with no area. */
  const ZeroRect := Rect(0, 0, 0, 0)

  /**
   * Two rectangles intersect when both have a positive area and their interiors
   * overlap on both axes: edges that only touch do not count (half-open intervals).
   */
  predicate Intersects(a: Rect, b: Rect) {
    && a.width > 0 && a.height > 0 && b.width > 0 && b.height > 0
    && a.x < b.x + b.width && b.x < a.x + a.width
    && a.y < b.y + b.height && b.y < a.y + a.height
  }
}
