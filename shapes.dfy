/**
 * The shapes a figure may have, and how each one changes a bounding box. Circle and Square
 * override the size setters to keep the box square; every other shape uses the defaults.
 */
module Shapes {
  import opened Geometry

  datatype Shape =
    | Circle
    | Square
    | Oval
    | Rectangle
      /** a shape class found on the class path at run time, using the default setters */
    | Loaded(name: string)
  {
    /** The name the shape was constructed with. */
    function Name(): string
    {
      match this
      case Circle => "Circle"
      case Square => "Square"
      case Oval => "Oval"
      case Rectangle => "Rectangle"
      case Loaded(n) => n
    }

    /** The shapes whose size setters force width == height. */
    predicate KeepsSquare() { Circle? || Square? }

    /** The box after `setX`: only the x location changes. */
    function WithX(b: Box, x: real): (r: Box)
      ensures r.x == x && r.y == b.y && r.width == b.width && r.height == b.height
    {
      b.(x := x)
    }

    /** The box after `setY`: only the y location changes. */
    function WithY(b: Box, y: real): (r: Box)
      ensures r.x == b.x && r.y == y && r.width == b.width && r.height == b.height
    {
      b.(y := y)
    }

    /**
     * The box after `setWidth`: the location stays; the width becomes `w`; a Circle or a
     * Square takes `w` as its height too, any other shape keeps its height.
     */
    function WithWidth(b: Box, w: real): (r: Box)
      ensures r.x == b.x && r.y == b.y && r.width == w
      ensures KeepsSquare() ==> r.IsSquare()
      ensures !KeepsSquare() ==> r.height == b.height
    {
      match this
      case Circle | Square => Box(b.x, b.y, w, w)
      case _ => Box(b.x, b.y, w, b.height)
    }

    /**
     * The box after `setHeight`: the location stays; the height becomes `h`; a Circle or a
     * Square takes `h` as its width too, any other shape keeps its width.
     */
    function WithHeight(b: Box, h: real): (r: Box)
      ensures r.x == b.x && r.y == b.y && r.height == h
      ensures KeepsSquare() ==> r.IsSquare()
      ensures !KeepsSquare() ==> r.width == b.width
    {
      match this
      case Circle | Square => Box(b.x, b.y, h, h)
      case _ => Box(b.x, b.y, b.width, h)
    }

    /** Shape.setX: moves the given rectangle horizontally, in place. */
    method SetX(rect: Rect, x: real)
      modifies rect
      ensures rect.Value() == WithX(old(rect.Value()), x)
    {
      rect.SetRect(x, rect.y, rect.width, rect.height);
    }

    /** Shape.setY: moves the given rectangle vertically, in place. */
    method SetY(rect: Rect, y: real)
      modifies rect
      ensures rect.Value() == WithY(old(rect.Value()), y)
    {
      rect.SetRect(rect.x, y, rect.width, rect.height);
    }

    /** Shape.setWidth, overridden by Circle and Square. */
    method SetWidth(rect: Rect, w: real)
      modifies rect
      ensures rect.Value() == WithWidth(old(rect.Value()), w)
    {
      match this
      case Circle | Square =>
        rect.SetRect(rect.x, rect.y, w, w);
      case _ =>
        rect.SetRect(rect.x, rect.y, w, rect.height);
    }

    /** Shape.setHeight, overridden by Circle and Square. */
    method SetHeight(rect: Rect, h: real)
      modifies rect
      ensures rect.Value() == WithHeight(old(rect.Value()), h)
    {
      match this
      case Circle | Square =>
        rect.SetRect(rect.x, rect.y, h, h);
      case _ =>
        rect.SetRect(rect.x, rect.y, rect.width, h);
    }
  }

  /**
   * For a Circle or a Square, a square box stays square under every setter, and the size
   * setters make any box square.
   */
  lemma SquareShapesStaySquare(s: Shape, b: Box, v: real)
    requires s.KeepsSquare()
    ensures s.WithWidth(b, v).IsSquare() && s.WithHeight(b, v).IsSquare()
    ensures b.IsSquare() ==> s.WithX(b, v).IsSquare() && s.WithY(b, v).IsSquare()
  {
  }

  /** A built-in shape's name tells which shape it is. */
  lemma BuiltInNamesIdentify(s: Shape, t: Shape)
    requires !s.Loaded? && !t.Loaded?
    ensures s.Name() == t.Name() <==> s == t
  {
  }
}
