/** Bounding boxes: a value snapshot (Box) and the mutable rectangle object figures own (Rect). */
module Geometry {

  function Min(a: real, b: real): real { if a <= b then a else b }
  function Max(a: real, b: real): real { if a <= b then b else a }
  function Abs(a: real): real { if a < 0.0 then -a else a }

  /**
   * The upper-left corner and the size of a rectangle. While a figure is being drawn the
   * size may be negative: the box then extends to the left of (or above) its corner.
   */
  datatype Box = Box(x: real, y: real, width: real, height: real) {

    /** A degenerate box: no width or no height. */
    predicate IsEmpty() { width == 0.0 || height == 0.0 }

    /** Both sizes are non-negative. */
    predicate IsNormal() { width >= 0.0 && height >= 0.0 }

    predicate IsSquare() { width == height }

    /** The closed horizontal interval the box covers, whatever the sign of its width. */
    function Left(): real { Min(x, x + width) }
    function Right(): real { Max(x, x + width) }

    /** The closed vertical interval the box covers, whatever the sign of its height. */
    function Top(): real { Min(y, y + height) }
    function Bottom(): real { Max(y, y + height) }

    /** The box grown by `d` on each of its four sides. */
    function Enlarged(d: real): Box { Box(x - d, y - d, width + 2.0 * d, height + 2.0 * d) }

    /** The point lies in the closed box spanned from the corner by the (signed) size. */
    predicate Contains(px: real, py: real) { x <= px <= x + width && y <= py <= y + height }
  }

  /** java.awt.geom.Rectangle2D.Double: a rectangle updated in place. */
  class Rect {
    var x: real
    var y: real
    var width: real
    var height: real

    function Value(): Box
      reads this
    {
      Box(x, y, width, height)
    }

    constructor (x: real, y: real, width: real, height: real)
      ensures Value() == Box(x, y, width, height)
    {
      this.x, this.y, this.width, this.height := x, y, width, height;
    }

    /** Rectangle2D.setRect: replaces all four coordinates at once. */
    method SetRect(x: real, y: real, width: real, height: real)
      modifies this
      ensures Value() == Box(x, y, width, height)
    {
      this.x, this.y, this.width, this.height := x, y, width, height;
    }
  }
}
