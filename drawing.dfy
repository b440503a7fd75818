/** A figure to be drawn: a shape, a color, a bounding box, a selection flag, a unique id. */
module Drawing {
  import opened Common
  import opened Geometry
  import opened Shapes
  import opened Compass

  /** A color channel of java.awt.Color. */
  type Channel = c: int | 0 <= c < 256

  datatype Color = Color(red: Channel, green: Channel, blue: Channel)

  /** The value `++LAST_ID` gives: the next Java `int`, wrapping from INT_MAX to INT_MIN. */
  function NextId(last: Int32): Int32
  {
    Wrap32(last + 1)
  }

  /** Below INT_MAX an id is one more than the last one; at INT_MAX the counter wraps. */
  lemma NextIdStep(last: Int32)
    ensures last < INT_MAX ==> NextId(last) == last + 1
    ensures last == INT_MAX ==> NextId(last) == INT_MIN
  {
  }

  /** The value of LAST_ID once `n` figures have been constructed in a fresh process. */
  function Issued(n: nat): Int32
  {
    if n == 0 then 0 else NextId(Issued(n - 1))
  }

  /** The n-th figure constructed gets id n, as long as n fits in an `int`. */
  lemma {:induction false} IssuedCountsFigures(n: nat)
    requires n <= INT_MAX
    ensures Issued(n) == n
  {
    if n > 0 {
      IssuedCountsFigures(n - 1);
      NextIdStep(n - 1);
    }
  }

  /** Ids are strictly increasing in construction order, up to INT_MAX figures. */
  lemma IssuedIncreasing(m: nat, n: nat)
    requires m < n <= INT_MAX
    ensures Issued(m) < Issued(n)
  {
    IssuedCountsFigures(m);
    IssuedCountsFigures(n);
  }

  /** Whatever the number of figures, LAST_ID holds that number's low 32 bits. */
  lemma {:induction false} IssuedIsWrapped(n: nat)
    ensures Issued(n) == Wrap32(n)
  {
    if n > 0 {
      IssuedIsWrapped(n - 1);
      WrapSucc(n - 1);
    }
  }

  /**
   * Past INT_MAX figures the ids wrap around: the next 2^32 figures repeat the ids shifted
   * by 2^32, starting with INT_MIN, and the first 2^31 of them are negative.
   */
  lemma IssuedWraps(n: nat)
    requires INT_MAX < n <= INT_MAX + 0x1_0000_0000
    ensures Issued(n) == n - 0x1_0000_0000
    ensures n < 0x1_0000_0000 ==> Issued(n) < 0
  {
    IssuedIsWrapped(n);
    ModOfShifted(n - INT_MIN - 0x1_0000_0000, 0x1_0000_0000);
  }

  /** Figure's static LAST_ID counter, shared by every figure construction of one process. */
  class IdCounter {
    var last: Int32

    /** A fresh process: LAST_ID starts at 0. */
    constructor ()
      ensures last == 0
    {
      last := 0;
    }

    /** `++LAST_ID`. */
    method Next() returns (id: Int32)
      modifies this
      ensures last == NextId(old(last)) && id == last
    {
      last := NextId(last);
      id := last;
    }
  }

  /**
   * Figure.makeRectangle: the box with the same extent as (x, y, width, height) and
   * non-negative sizes.
   */
  function MakeRectangle(x: real, y: real, width: real, height: real): (r: Box)
    ensures r.IsNormal()
    ensures r.Left() == Box(x, y, width, height).Left() && r.Right() == Box(x, y, width, height).Right()
    ensures r.Top() == Box(x, y, width, height).Top() && r.Bottom() == Box(x, y, width, height).Bottom()
  {
    var (x1, w1) := if width < 0.0 then (x + width, -width) else (x, width);
    var (y1, h1) := if height < 0.0 then (y + height, -height) else (y, height);
    Box(x1, y1, w1, h1)
  }

  /** A box that is already normal is left as it is. */
  lemma MakeRectangleOfNormal(b: Box)
    requires b.IsNormal()
    ensures MakeRectangle(b.x, b.y, b.width, b.height) == b
  {
  }

  /** Normalising twice is normalising once. */
  lemma MakeRectangleIdempotent(x: real, y: real, width: real, height: real)
    ensures var r := MakeRectangle(x, y, width, height);
      MakeRectangle(r.x, r.y, r.width, r.height) == r
  {
  }

  class Figure {
    /** unique identifier, taken from the counter when the figure is constructed */
    const id: Int32
    const shape: Shape
    var color: Color
    /** the bounding box, owned by this figure and changed in place through its shape */
    const rect: Rect
    var selected: bool

    /** Figure(shape, color, x, y): a new figure at (x, y) with zero size. */
    constructor (counter: IdCounter, shape: Shape, color: Color, x: real, y: real)
      modifies counter
      ensures id == NextId(old(counter.last)) && counter.last == id
      ensures this.shape == shape && this.color == color && !selected
      ensures fresh(rect) && rect.Value() == Box(x, y, 0.0, 0.0)
      ensures IsEmpty()
    {
      var next := counter.Next();
      id := next;
      this.shape := shape;
      this.color := color;
      rect := new Rect(x, y, 0.0, 0.0);
      selected := false;
    }

    /** The figure has no width or no height: its area is zero. */
    predicate IsEmpty()
      reads rect
      ensures IsEmpty() <==> rect.width * rect.height == 0.0
    {
      rect.Value().IsEmpty()
    }

    /**
     * The point is within 2 units of the bounding box. The ensures restates the test as a box,
     * the form FrontMost and DrawnCornersInside reason about.
     */
    predicate IsInside(px: real, py: real)
      reads rect
      ensures IsInside(px, py) <==> rect.Value().Enlarged(2.0).Contains(px, py)
    {
      px >= rect.x - 2.0 && px <= rect.x + rect.width + 2.0 &&
      py >= rect.y - 2.0 && py <= rect.y + rect.height + 2.0
    }

    /**
     * The border the point is near, if any: one of the four corners (north and west take
     * precedence over south and east), one of the four edge middles, or nothing.
     */
    function GetBorderLocation(px: real, py: real): (r: Option<Direction>)
      reads rect
      ensures var b := rect.Value();
        var west, east, midX := NearWest(b, px), NearEast(b, px), NearMiddleX(b, px);
        var north, south, midY := NearNorth(b, py), NearSouth(b, py), NearMiddleY(b, py);
        && (r.Some? && r.value.IsNorth() <==> north && (west || east || midX))
        && (r.Some? && r.value.IsSouth() <==> !north && south && (west || east || midX))
        && (r.Some? && r.value.IsWest() <==> west && (north || south || midY))
        && (r.Some? && r.value.IsEast() <==> !west && east && (north || south || midY))
    {
      var b := rect.Value();
      var west, east, middle := NearWest(b, px), NearEast(b, px), NearMiddleX(b, px);
      if NearNorth(b, py) then
        if west then Some(NorthWest) else if east then Some(NorthEast) else if middle then Some(North) else None
      else if NearSouth(b, py) then
        if west then Some(SouthWest) else if east then Some(SouthEast) else if middle then Some(South) else None
      else if NearMiddleY(b, py) then
        if west then Some(West) else if east then Some(East) else None
      else
        None
    }

    method SetSelected(selected: bool)
      modifies this`selected
      ensures this.selected == selected && color == old(color)
    {
      this.selected := selected;
    }

    method SetColor(color: Color)
      modifies this`color
      ensures this.color == color && selected == old(selected)
    {
      this.color := color;
    }

    /** Figure.setX, through the figure's shape. */
    method SetX(x: real)
      modifies rect
      ensures rect.Value() == shape.WithX(old(rect.Value()), x)
    {
      shape.SetX(rect, x);
    }

    method SetY(y: real)
      modifies rect
      ensures rect.Value() == shape.WithY(old(rect.Value()), y)
    {
      shape.SetY(rect, y);
    }

    method SetWidth(w: real)
      modifies rect
      ensures rect.Value() == shape.WithWidth(old(rect.Value()), w)
    {
      shape.SetWidth(rect, w);
    }

    method SetHeight(h: real)
      modifies rect
      ensures rect.Value() == shape.WithHeight(old(rect.Value()), h)
    {
      shape.SetHeight(rect, h);
    }

    /** Figure.update: makes a negative width or height positive, moving the corner. */
    method Update()
      modifies rect
      ensures rect.Value() == MakeRectangle(old(rect.x), old(rect.y), old(rect.width), old(rect.height))
    {
      if rect.width < 0.0 {
        rect.SetRect(rect.x + rect.width, rect.y, -rect.width, rect.height);
      }
      if rect.height < 0.0 {
        rect.SetRect(rect.x, rect.y + rect.height, rect.width, -rect.height);
      }
    }
  }

  /** The bands of getBorderLocation: within 4 units of an edge or of the centre line. */
  predicate NearWest(b: Box, px: real) { px <= b.x + 4.0 }
  predicate NearEast(b: Box, px: real) { px >= b.x + b.width - 4.0 }
  predicate NearMiddleX(b: Box, px: real) { b.x + b.width / 2.0 - 4.0 <= px <= b.x + b.width / 2.0 + 4.0 }
  predicate NearNorth(b: Box, py: real) { py <= b.y + 4.0 }
  predicate NearSouth(b: Box, py: real) { py >= b.y + b.height - 4.0 }
  predicate NearMiddleY(b: Box, py: real) { b.y + b.height / 2.0 - 4.0 <= py <= b.y + b.height / 2.0 + 4.0 }

  /**
   * Both ends of the drag that drew a figure, (x, y) and (x + width, y + height), lie in the
   * hit box of the normalised figure, whichever way the drag went.
   */
  lemma DrawnCornersInside(x: real, y: real, width: real, height: real)
    ensures var r := MakeRectangle(x, y, width, height);
      r.Enlarged(2.0).Contains(x, y) && r.Enlarged(2.0).Contains(x + width, y + height)
  {
  }
}
