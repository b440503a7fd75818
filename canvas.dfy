/**
 * The drawing canvas (FiguresCanvas.java) as a state machine over mouse and key events.
 * Events carry canvas coordinates; the calls the canvas makes on the server are recorded
 * in the order it makes them.
 */
module Canvas {
  import opened Common
  import opened Geometry
  import opened Shapes
  import opened Compass
  import opened Drawing
  import opened FigureLists

  /** KeyEvent.VK_DELETE */
  const VK_DELETE: int := 127

  /** A call the canvas makes on the server. */
  datatype Request =
    | AddRequest(added: Figure?)
    | UpdateRequest(updated: Figure)
    | RemoveRequest(removed: Figure)

  /**
   * How an event handler ends: normally, or by a NullPointerException, thrown either on the
   * canvas (a null selected figure) or by the server and passed back to the caller.
   */
  datatype Outcome = Completed | NullPointer

  /**
   * The box a move leaves: the start location shifted by the mouse's displacement. A move
   * keeps the size, and bringing the mouse back to where it was pressed undoes it.
   */
  function MovedBox(shape: Shape, b: Box, start: Box, sx: real, sy: real, x: real, y: real): (r: Box)
    ensures r.width == b.width && r.height == b.height
    ensures r.x - start.x == x - sx && r.y - start.y == y - sy
  {
    shape.WithY(shape.WithX(b, start.x + x - sx), start.y + y - sy)
  }

  /**
   * The box a resize in direction `d` leaves: the west or the east side follows the mouse,
   * then the north or the south side, each through the shape's own setters. Whatever the
   * direction, a resized Circle or Square stays square.
   */
  function ResizedBox(shape: Shape, b: Box, d: Direction, start: Box, sx: real, sy: real, x: real, y: real): (r: Box)
    ensures shape.KeepsSquare() ==> r.IsSquare()
  {
    EveryDirectionHasAComponent(d);
    var horizontal :=
      if d.IsWest() then shape.WithX(shape.WithWidth(b, start.width + sx - x), start.x + x - sx)
      else if d.IsEast() then shape.WithWidth(b, start.width + x - sx)
      else b;
    if d.IsNorth() then shape.WithY(shape.WithHeight(horizontal, start.height + sy - y), start.y + y - sy)
    else if d.IsSouth() then shape.WithHeight(horizontal, start.height + y - sy)
    else horizontal
  }

  /**
   * A west resize keeps the right edge where it was when the mouse was pressed, unless a
   * Circle or a Square is also resized vertically (its height then overrides its width).
   */
  lemma WestResizeKeepsRightEdge(shape: Shape, b: Box, d: Direction, start: Box, sx: real, sy: real, x: real, y: real)
    requires d.IsWest()
    requires !shape.KeepsSquare() || d == West
    ensures var r := ResizedBox(shape, b, d, start, sx, sy, x, y);
      r.x + r.width == start.x + start.width
  {
  }

  /** A north resize keeps the bottom edge where it was when the mouse was pressed. */
  lemma NorthResizeKeepsBottomEdge(shape: Shape, b: Box, d: Direction, start: Box, sx: real, sy: real, x: real, y: real)
    requires d.IsNorth()
    ensures var r := ResizedBox(shape, b, d, start, sx, sy, x, y);
      r.y + r.height == start.y + start.height
  {
  }

  /** An east or a south resize never moves the corner; a pure east or south one moves one side only. */
  lemma EastSouthResizeKeepCorner(shape: Shape, b: Box, d: Direction, start: Box, sx: real, sy: real, x: real, y: real)
    requires !d.IsWest() && !d.IsNorth()
    ensures var r := ResizedBox(shape, b, d, start, sx, sy, x, y);
      && r.x == b.x && r.y == b.y
      && (d == East && !shape.KeepsSquare() ==> r.width == start.width + x - sx && r.height == b.height)
      && (d == South && !shape.KeepsSquare() ==> r.height == start.height + y - sy && r.width == b.width)
  {
  }

  class FiguresCanvas {
    /** the figures drawn on this canvas */
    const figures: Figures
    /** the selected figure, if any */
    var selected: Figure?
    /** the mouse location when it was last pressed */
    var startX: real
    var startY: real
    /** figureStartX, figureStartY, figureStartWidth, figureStartHeight */
    var figureStart: Box
    var resizeDirection: Option<Direction>
    var dragging: bool
    /** the mouse is over the selected figure, away from its borders: dragging moves it */
    var moveCursor: bool
    /** the mouse is at a border of the selected figure: dragging resizes it */
    var resizeCursor: bool
    var shape: Shape
    var color: Color
    /** the calls made on the server, oldest first */
    var sent: seq<Request>

    /** A resize cursor always comes with a direction. */
    ghost predicate Valid()
      reads this
    {
      resizeCursor ==> resizeDirection.Some?
    }

    /** The move mode, the resize mode and the resize direction, together. */
    function Mode(): (bool, bool, Option<Direction>)
      reads this
    {
      (moveCursor, resizeCursor, resizeDirection)
    }

    /** The mode setMoveCursor gives for the mouse at (px, py) over the figure. */
    predicate ModeFrom(f: Figure, px: real, py: real)
      reads this, f.rect
    {
      && (f.GetBorderLocation(px, py).None? ==> moveCursor && !resizeCursor)
      && (f.GetBorderLocation(px, py).Some? ==>
            !moveCursor && resizeCursor && resizeDirection == f.GetBorderLocation(px, py))
    }

    /**
     * The canvas over the figures obtained from the server. The Java constructor sets neither
     * shape nor color; the frame's setShape and setColor calls that follow it on the toolbar's
     * initial choices are folded in as the two parameters.
     */
    constructor (figures: Figures, shape: Shape, color: Color)
      ensures Valid() && this.figures == figures && this.shape == shape && this.color == color
      ensures selected == null && !dragging && !moveCursor && !resizeCursor && resizeDirection == None
      ensures sent == []
    {
      this.figures := figures;
      this.shape := shape;
      this.color := color;
      selected := null;
      startX, startY := 0.0, 0.0;
      figureStart := Box(0.0, 0.0, 0.0, 0.0);
      resizeDirection := None;
      dragging, moveCursor, resizeCursor := false, false, false;
      sent := [];
    }

    /** setShape: the shape of the next figure drawn. */
    method SetShape(shape: Shape)
      modifies this`shape
      ensures this.shape == shape
    {
      this.shape := shape;
    }

    /**
     * setColor: the color of the next figure drawn; a selected figure takes the color and
     * the server is asked to update it.
     */
    method SetColor(color: Color)
      modifies this`color, this`sent, (if selected != null then {selected} else {})`color
      ensures this.color == color
      ensures selected == null ==> sent == old(sent)
      ensures selected != null ==> selected.color == color && sent == old(sent) + [UpdateRequest(selected)]
    {
      this.color := color;
      if selected != null {
        selected.SetColor(color);
        sent := sent + [UpdateRequest(selected)];
      }
    }

    /**
     * setMoveCursor, without the cursor's appearance: away from the borders the mouse will
     * move the figure, at a border it will resize it in that border's direction.
     */
    method SetMoveCursor(f: Figure, px: real, py: real)
      modifies this`moveCursor, this`resizeCursor, this`resizeDirection
      ensures Valid()
      ensures f.GetBorderLocation(px, py).None? ==>
        moveCursor && !resizeCursor && resizeDirection == old(resizeDirection)
      ensures f.GetBorderLocation(px, py).Some? ==>
        !moveCursor && resizeCursor && resizeDirection == f.GetBorderLocation(px, py)
    {
      var location := f.GetBorderLocation(px, py);
      if location.None? {
        moveCursor := true;
        resizeCursor := false;
      } else {
        moveCursor := false;
        resizeCursor := true;
        resizeDirection := location;
      }
    }

    /**
     * select: selecting the figure already selected does nothing. Otherwise the previous
     * selection loses its flag, and a non-null figure becomes the selection, gets its flag
     * and sets the cursor mode from the mouse location.
     */
    method Select(f: Figure?, px: real, py: real)
      requires Valid()
      modifies this`selected, this`moveCursor, this`resizeCursor, this`resizeDirection
      modifies (if selected != null then {selected} else {})`selected, (if f != null then {f} else {})`selected
      ensures Valid() && selected == f
      ensures f == old(selected) ==> Mode() == old(Mode()) && (f != null ==> f.selected == old(f.selected))
      ensures f != old(selected) && old(selected) != null ==> !old(selected).selected
      ensures f != old(selected) && f != null ==> f.selected && ModeFrom(f, px, py)
      ensures f == null ==> Mode() == old(Mode())
    {
      if f == selected {
        return;
      }
      if selected != null {
        selected.SetSelected(false);
        selected := null;
      }
      if f != null {
        selected := f;
        f.SetSelected(true);
        SetMoveCursor(f, px, py);
      }
    }

    /** unselect: only a selection with the figure's id is cleared, flag included. */
    method Unselect(g: Figure)
      modifies this`selected, (if selected != null then {selected} else {})`selected
      ensures old(selected) != null && old(selected).id == g.id ==>
        selected == null && !old(selected).selected
      ensures old(selected) == null || old(selected).id != g.id ==>
        selected == old(selected) && (selected != null ==> selected.selected == old(selected.selected))
    {
      if selected != null && selected.id == g.id {
        selected.SetSelected(false);
        selected := null;
      }
    }

    /**
     * The end of dragging out a new figure: the figure in progress is added unless empty,
     * becomes the selection, and is sent to the server. When nothing was added the server is
     * sent null, on which addFigure always throws a NullPointerException (FiguresBoxImpl.java
     * dereferences it at line 17 or line 23). `serverHoldsNull` says whether the server's store
     * already holds such a null; addFigure then throws at line 17 on every figure. Either
     * exception reaches the caller as NullPointer.
     */
    method FinishNewFigure(x: real, y: real, serverHoldsNull: bool) returns (outcome: Outcome)
      requires Valid()
      modifies this`selected, this`sent, this`moveCursor, this`resizeCursor, this`resizeDirection
      modifies figures, if figures.current != null then {figures.current.rect} else {}
      modifies (if selected != null then {selected} else {})`selected
      modifies (if figures.current != null then {figures.current} else {})`selected
      ensures Valid()
      ensures var added := if old(figures.current) == null || old(figures.current.IsEmpty()) then null else old(figures.current);
        && selected == added
        && figures.current == null
        && (added == null ==> figures.elems == old(figures.elems))
        && (added != null ==>
              && figures.elems == old(figures.elems) + [added]
              && added.rect.Value() == MakeRectangle(old(added.rect.x), old(added.rect.y), old(added.rect.width), old(added.rect.height)))
        && sent == old(sent) + [AddRequest(added)]
        && (outcome == NullPointer <==> added == null || serverHoldsNull)
        && (added != old(selected) && added != null ==> added.selected && ModeFrom(added, x, y))
        && (added != old(selected) && old(selected) != null ==> !old(selected).selected)
        && (added == null || added == old(selected) ==> Mode() == old(Mode()))
        && (added == old(selected) && added != null ==> added.selected == old(added.selected))
      ensures forall g :: g in old(figures.elems) && g != old(selected) && g != selected ==> g.selected == old(g.selected)
    {
      var added := figures.AddCurrentFigure();
      Select(added, x, y);
      sent := sent + [AddRequest(added)];
      outcome := if added == null || serverHoldsNull then NullPointer else Completed;
    }

    /**
     * The end of moving or resizing: the selected figure is normalised and sent as updated.
     * When the server's store holds a null, updateFigure throws at FiguresBoxImpl.java line 60
     * and the exception reaches the caller as NullPointer.
     */
    method FinishEdit(serverHoldsNull: bool) returns (outcome: Outcome)
      modifies this`sent, if selected != null then {selected.rect} else {}
      ensures outcome == NullPointer <==> selected != null && serverHoldsNull
      ensures selected == null ==> sent == old(sent)
      ensures selected != null ==>
        && selected.rect.Value() ==
           MakeRectangle(old(selected.rect.x), old(selected.rect.y), old(selected.rect.width), old(selected.rect.height))
        && sent == old(sent) + [UpdateRequest(selected)]
    {
      outcome := Completed;
      if selected != null {
        selected.Update();
        sent := sent + [UpdateRequest(selected)];
        if serverHoldsNull {
          outcome := NullPointer;
        }
      }
    }

    /** A click: the front-most figure under the mouse, or null, becomes the selection. */
    method SelectAt(x: real, y: real)
      requires Valid()
      modifies this`selected, this`moveCursor, this`resizeCursor, this`resizeDirection
      modifies (if selected != null then {selected} else {})`selected
      modifies (set f | f in figures.elems :: f)`selected
      ensures Valid() && selected == FrontMost(figures.elems, x, y)
      ensures selected != old(selected) && selected != null ==> selected.selected && ModeFrom(selected, x, y)
      ensures selected != old(selected) && old(selected) != null ==> !old(selected).selected
      ensures selected == null || selected == old(selected) ==> Mode() == old(Mode())
      ensures selected == old(selected) && selected != null ==> selected.selected == old(selected.selected)
      ensures forall g :: g in figures.elems && g != old(selected) && g != selected ==> g.selected == old(g.selected)
    {
      var under := figures.GetFigureAt(x, y);
      Select(under, x, y);
    }

    /**
     * mouseReleased: ends a drag with FinishNewFigure when a new figure was being drawn and
     * with FinishEdit when the selection was moved or resized; a click without dragging is
     * SelectAt. Dragging ends, except when the server throws: on the null figure sent after a
     * drag that drew nothing, or on any add or update once its store holds a null
     * (`serverHoldsNull`). The exception then leaves mouseReleased before `dragging = false`,
     * and the canvas stays in the dragging state.
     */
    method MouseReleased(x: real, y: real, serverHoldsNull: bool) returns (outcome: Outcome)
      requires Valid()
      modifies this`selected, this`dragging, this`sent, this`moveCursor, this`resizeCursor, this`resizeDirection
      modifies figures, if figures.current != null then {figures.current.rect} else {}
      modifies if selected != null then {selected.rect} else {}
      modifies (if selected != null then {selected} else {})`selected
      modifies (if figures.current != null then {figures.current} else {})`selected
      modifies (set f | f in figures.elems :: f)`selected
      ensures Valid()
      ensures dragging <==> outcome == NullPointer
      ensures outcome == NullPointer ==> old(dragging)
      ensures old(dragging) && !old(moveCursor) && !old(resizeCursor) ==>
        var added := if old(figures.current) == null || old(figures.current.IsEmpty()) then null else old(figures.current);
        && selected == added
        && figures.current == null
        && (added == null ==> figures.elems == old(figures.elems))
        && (added != null ==> figures.elems == old(figures.elems) + [added])
        && sent == old(sent) + [AddRequest(added)]
        && (outcome == NullPointer <==> added == null || serverHoldsNull)
        && (added != old(selected) && added != null ==> added.selected && ModeFrom(added, x, y))
        && (added != old(selected) && old(selected) != null ==> !old(selected).selected)
        && (added == null || added == old(selected) ==> Mode() == old(Mode()))
        && (added == old(selected) && added != null ==> added.selected == old(added.selected))
      ensures old(dragging) && (old(moveCursor) || old(resizeCursor)) ==>
        && (outcome == NullPointer <==> selected != null && serverHoldsNull)
        && selected == old(selected)
        && figures.elems == old(figures.elems) && figures.current == old(figures.current)
        && (selected == null ==> sent == old(sent))
        && (selected != null ==> sent == old(sent) + [UpdateRequest(selected)])
        && Mode() == old(Mode())
        && (selected != null ==> selected.selected == old(selected.selected))
        && (figures.current != null && (selected == null || selected.rect != figures.current.rect) ==>
              figures.current.rect.Value() == old(figures.current.rect.Value()))
      ensures !old(dragging) ==>
        && selected == FrontMost(figures.elems, x, y)
        && figures.elems == old(figures.elems) && figures.current == old(figures.current)
        && sent == old(sent)
        && (selected != old(selected) && selected != null ==> selected.selected && ModeFrom(selected, x, y))
        && (selected != old(selected) && old(selected) != null ==> !old(selected).selected)
        && (selected == null || selected == old(selected) ==> Mode() == old(Mode()))
        && (selected == old(selected) && selected != null ==> selected.selected == old(selected.selected))
        && (old(selected) != null ==> old(selected).rect.Value() == old(selected.rect.Value()))
        && (figures.current != null ==> figures.current.rect.Value() == old(figures.current.rect.Value()))
      ensures forall g :: g in old(figures.elems) && g != old(selected) && g != selected ==> g.selected == old(g.selected)
    {
      outcome := Completed;
      if dragging {
        if !moveCursor && !resizeCursor {
          outcome := FinishNewFigure(x, y, serverHoldsNull);
        } else {
          outcome := FinishEdit(serverHoldsNull);
        }
      } else {
        SelectAt(x, y);
      }
      if outcome == Completed {
        dragging := false;
      }
    }

    /**
     * mouseMoved: outside a drag, hovering over a selected figure (the front-most one under
     * the mouse) sets the move or resize mode from the mouse location, and leaving it clears
     * both modes.
     */
    method MouseMoved(x: real, y: real)
      requires Valid()
      modifies this`moveCursor, this`resizeCursor, this`resizeDirection
      ensures Valid()
      ensures dragging ==>
        moveCursor == old(moveCursor) && resizeCursor == old(resizeCursor) && resizeDirection == old(resizeDirection)
      ensures !dragging ==>
        var under := FrontMost(figures.elems, x, y);
        && (under != null && under.selected ==>
              && (under.GetBorderLocation(x, y).None? ==> moveCursor && !resizeCursor)
              && (under.GetBorderLocation(x, y).Some? ==>
                    !moveCursor && resizeCursor && resizeDirection == under.GetBorderLocation(x, y)))
        && (!(under != null && under.selected) ==>
              !moveCursor && !resizeCursor && resizeDirection == old(resizeDirection))
    {
      if dragging {
        return;
      }
      var under := figures.GetFigureAt(x, y);
      if under != null && under.selected {
        SetMoveCursor(under, x, y);
      } else if (moveCursor || resizeCursor) && (under == null || !under.selected) {
        moveCursor := false;
        resizeCursor := false;
      }
    }

    /**
     * keyPressed: Delete with a selection removes that object from the list, asks the
     * server to remove it and clears the selection; any other case changes nothing.
     */
    method KeyPressed(keyCode: int)
      modifies this`selected, this`sent, figures
      ensures figures.current == old(figures.current)
      ensures keyCode == VK_DELETE && old(selected) != null ==>
        && figures.elems == RemoveFirst(old(figures.elems), old(selected))
        && sent == old(sent) + [RemoveRequest(old(selected))]
        && selected == null
      ensures keyCode != VK_DELETE || old(selected) == null ==>
        figures.elems == old(figures.elems) && sent == old(sent) && selected == old(selected)
    {
      if keyCode == VK_DELETE && selected != null {
        var _ := figures.Remove(selected);
        sent := sent + [RemoveRequest(selected)];
        selected := null;
      }
    }

    /**
     * mousePressed: records the mouse location; in move or resize mode it records the
     * selected figure's box (a null selection throws), otherwise it starts a new figure.
     */
    method MousePressed(x: real, y: real, counter: IdCounter) returns (outcome: Outcome)
      modifies this`startX, this`startY, this`figureStart, figures, counter
      ensures startX == x && startY == y
      ensures (moveCursor || resizeCursor) ==>
        && figures.elems == old(figures.elems) && figures.current == old(figures.current)
        && counter.last == old(counter.last)
        && (selected == null ==> outcome == NullPointer && figureStart == old(figureStart))
        && (selected != null ==> outcome == Completed && figureStart == selected.rect.Value())
      ensures !(moveCursor || resizeCursor) ==>
        && outcome == Completed && figureStart == old(figureStart)
        && figures.elems == old(figures.elems)
        && figures.current != null && fresh(figures.current) && fresh(figures.current.rect)
        && figures.current.id == NextId(old(counter.last)) && counter.last == figures.current.id
        && figures.current.shape == shape && figures.current.color == color
        && figures.current.rect.Value() == Box(x, y, 0.0, 0.0)
    {
      startX := x;
      startY := y;
      if moveCursor || resizeCursor {
        if selected == null {
          return NullPointer;
        }
        figureStart := selected.rect.Value();
      } else {
        figures.CreateFigure(counter, shape, color, startX, startY);
      }
      return Completed;
    }

    /** The move step of mouseDragged: the selected figure follows the mouse from where it was pressed. */
    method MoveSelected(x: real, y: real)
      requires selected != null
      modifies selected.rect
      ensures selected.rect.Value() ==
        MovedBox(selected.shape, old(selected.rect.Value()), figureStart, startX, startY, x, y)
    {
      selected.SetX(figureStart.x + x - startX);
      selected.SetY(figureStart.y + y - startY);
    }

    /** The resize step of mouseDragged: the sides of the resize direction follow the mouse. */
    method ResizeSelected(x: real, y: real)
      requires selected != null && resizeDirection.Some?
      modifies selected.rect
      ensures selected.rect.Value() ==
        ResizedBox(selected.shape, old(selected.rect.Value()), resizeDirection.value, figureStart, startX, startY, x, y)
    {
      var d := resizeDirection.value;
      if d.IsWest() {
        selected.SetWidth(figureStart.width + startX - x);
        selected.SetX(figureStart.x + x - startX);
      } else if d.IsEast() {
        selected.SetWidth(figureStart.width + x - startX);
      }
      if d.IsNorth() {
        selected.SetHeight(figureStart.height + startY - y);
        selected.SetY(figureStart.y + y - startY);
      } else if d.IsSouth() {
        selected.SetHeight(figureStart.height + y - startY);
      }
    }

    /**
     * mouseDragged: dragging starts once the mouse is more than 2 units away from where it was
     * pressed, clearing the selection unless a figure is being moved or resized. While
     * dragging, the selected figure is moved or resized, or else the figure in progress
     * is resized; a null selected figure throws before anything changes.
     */
    method MouseDragged(x: real, y: real) returns (outcome: Outcome)
      requires Valid()
      modifies this`dragging, this`selected, this`moveCursor, this`resizeCursor, this`resizeDirection
      modifies (if selected != null then {selected} else {})`selected, if selected != null then {selected.rect} else {}
      modifies if figures.current != null then {figures.current.rect} else {}
      ensures Valid()
      ensures dragging == (old(dragging) || Abs(x - startX) > 2.0 || Abs(y - startY) > 2.0)
      ensures moveCursor == old(moveCursor) && resizeCursor == old(resizeCursor)
      ensures resizeDirection == old(resizeDirection)
      ensures !dragging ==> outcome == Completed && selected == old(selected)
      ensures !dragging && selected != null ==> selected.rect.Value() == old(selected.rect.Value())
      ensures !dragging && figures.current != null ==> figures.current.rect.Value() == old(figures.current.rect.Value())
      ensures !(!old(dragging) && dragging && !moveCursor && !resizeCursor) && old(selected) != null ==>
        old(selected).selected == old(selected.selected)
      ensures (moveCursor || resizeCursor) && figures.current != null && (selected == null || selected.rect != figures.current.rect)
        ==> figures.current.rect.Value() == old(figures.current.rect.Value())
      ensures !moveCursor && !resizeCursor && old(selected) != null && (figures.current == null || old(selected).rect != figures.current.rect)
        ==> old(selected).rect.Value() == old(selected.rect.Value())
      ensures !old(dragging) && dragging && !moveCursor && !resizeCursor ==>
        selected == null && (old(selected) != null ==> !old(selected).selected)
      ensures old(dragging) || moveCursor || resizeCursor ==> selected == old(selected)
      ensures dragging && moveCursor ==>
        && (outcome == NullPointer <==> selected == null)
        && (selected != null ==>
              selected.rect.Value() == MovedBox(selected.shape, old(selected.rect.Value()), figureStart, startX, startY, x, y))
      ensures dragging && !moveCursor && resizeCursor ==>
        && (outcome == NullPointer <==> selected == null)
        && (selected != null ==>
              selected.rect.Value() ==
              ResizedBox(selected.shape, old(selected.rect.Value()), resizeDirection.value, figureStart, startX, startY, x, y))
      ensures dragging && !moveCursor && !resizeCursor ==>
        && outcome == Completed
        && (figures.current != null ==>
              figures.current.rect.Value() ==
              figures.current.shape.WithHeight(figures.current.shape.WithWidth(old(figures.current.rect.Value()), x - startX), y - startY))
    {
      if !dragging && (Abs(x - startX) > 2.0 || Abs(y - startY) > 2.0) {
        if !moveCursor && !resizeCursor {
          Select(null, x, y);
        }
        dragging := true;
      }
      if dragging {
        if moveCursor {
          if selected == null {
            return NullPointer;
          }
          MoveSelected(x, y);
        } else if resizeCursor {
          if selected == null {
            return NullPointer;
          }
          ResizeSelected(x, y);
        } else {
          figures.ResizeCurrentFigure(x - startX, y - startY);
        }
      }
      return Completed;
    }
  }
}
