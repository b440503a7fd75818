# Scribble online: the shared figure collection

This project models the core of a networked drawing program ("scribble online"). A server
keeps the figures the clients have drawn. Each client keeps a mirror of that store. At the
client's canvas, the user selects, moves, resizes, recolours, draws and deletes figures.

The model covers:

- **Common**: Java's 32-bit `int` with its wrap-around, and an optional value.
- **Compass**: the eight border directions and their four component tests.
- **Geometry**: a bounding box as a value (`Box`) and as the rectangle a figure changes in place (`Rect`).
- **Shapes**: the shape kinds. Circle and Square keep their box square; every other shape uses the default setters.
- **Drawing**: the figure (id, shape, colour, box, selection flag) and the process-wide id counter behind `++LAST_ID`.
- **FigureLists**: the list functions the store and the mirror are specified with, and the client's figure list with its figure in progress.
- **Server**: the server's store. Adding de-duplicates by id, then calls every callback. Removing is by object identity. Updating only broadcasts.
- **Mirror**: the client's callback. It replaces the last mirror figure with the same id, or appends a new one.
- **Canvas**: the canvas's mouse and key handlers as a state machine. The calls it makes on the server are kept in an outbox (`sent`).
- **ShapesFactory**: how class-path entries become the names of shape classes.
- **Launch**: the command-line checks of the server and of the client.

Remote calls are abstracted:

- A callback is an `Endpoint`.
- Each broadcast takes the set of endpoints whose call throws.
- The server logs every `edit` call it makes, with whether it was delivered.
- Mouse coordinates arrive already in canvas units.

The model follows the code:

- Ids come from each client's own counter, not from the server.
- Broadcasts go to every registered callback, the originator included, and failing callbacks are never pruned.
- Removal is by object identity and is not broadcast.
- `updateFigure` does not change the store (see Findings).
- The mirror removes the matching figure and appends the new one; it does not replace it in place.
- Notifications carry no change-kind tag.
- The selection flag is part of the figure.

## Model

| member | source | states |
|---|---|---|
| Common.Wrap32 | src/fr/ubs/scribble/Figure.java:56 | a Java `int` result agrees with the exact value modulo 2^32, and equals it when it is in range |
| Compass.OppositesExclusive | src/fr/ubs/scribble/Direction.java:32-65 | no direction is both north and south, or both west and east |
| Compass.EveryDirectionHasAComponent | src/fr/ubs/scribble/Direction.java:32-65 | every direction satisfies at least one of the four component tests |
| Compass.CardinalComponents | src/fr/ubs/scribble/Direction.java:32-65 | each cardinal direction has only its own component |
| Compass.DiagonalComponents | src/fr/ubs/scribble/Direction.java:32-65 | each diagonal direction has exactly its two components |
| Compass.ComponentsDetermineDirection | src/fr/ubs/scribble/Direction.java:32-65 | two directions with the same four component tests are the same direction |
| Geometry.Rect.constructor | src/fr/ubs/scribble/Figure.java:59 | a new rectangle holds exactly the four values it is built from |
| Geometry.Rect.SetRect | src/fr/ubs/scribble/shapes/Shape.java:48 | `setRect` replaces all four coordinates of the rectangle |
| Shapes.Shape.WithX | src/fr/ubs/scribble/shapes/Shape.java:46-49 | `setX` changes the x location only |
| Shapes.Shape.WithY | src/fr/ubs/scribble/shapes/Shape.java:57-60 | `setY` changes the y location only |
| Shapes.Shape.WithWidth | src/fr/ubs/scribble/shapes/Circle.java:23-27 | `setWidth` sets the width and keeps the location; Circle and Square make the box square, other shapes keep the height |
| Shapes.Shape.WithHeight | src/fr/ubs/scribble/shapes/Square.java:27-31 | `setHeight` sets the height and keeps the location; Circle and Square make the box square, other shapes keep the width |
| Shapes.Shape.SetX | src/fr/ubs/scribble/shapes/Shape.java:46-49 | the rectangle becomes `WithX` of its old value |
| Shapes.Shape.SetY | src/fr/ubs/scribble/shapes/Shape.java:57-60 | the rectangle becomes `WithY` of its old value |
| Shapes.Shape.SetWidth | src/fr/ubs/scribble/shapes/Shape.java:68-71 | the rectangle becomes `WithWidth` of its old value, with the Circle and Square override |
| Shapes.Shape.SetHeight | src/fr/ubs/scribble/shapes/Shape.java:79-82 | the rectangle becomes `WithHeight` of its old value, with the Circle and Square override |
| Shapes.SquareShapesStaySquare | src/fr/ubs/scribble/shapes/Circle.java:23-33 | for Circle and Square the size setters always give a square box, and moving keeps a square box square |
| Shapes.Shape.Name | src/fr/ubs/scribble/shapes/Shape.java:35-38 | the name the shape was constructed with: the built-in class's own name, or the loaded class's name; Shapes.BuiltInNamesIdentify states that it tells the built-in shapes apart |
| Shapes.BuiltInNamesIdentify | src/fr/ubs/scribble/shapes/Circle.java:17-20 | two built-in shapes have the same name exactly when they are the same shape |
| Drawing.NextIdStep | src/fr/ubs/scribble/Figure.java:56 | `++LAST_ID` adds one below INT_MAX and wraps to INT_MIN at INT_MAX |
| Drawing.IssuedCountsFigures | src/fr/ubs/scribble/Figure.java:56 | the n-th figure built in a fresh process gets id n, as long as n fits in an `int` |
| Drawing.IssuedIncreasing | src/fr/ubs/scribble/Figure.java:56 | ids increase strictly in construction order up to INT_MAX figures |
| Drawing.IssuedIsWrapped | src/fr/ubs/scribble/Figure.java:56 | after any number of figures, the counter holds that number's low 32 bits |
| Drawing.IssuedWraps | src/fr/ubs/scribble/Figure.java:56 | past INT_MAX figures the ids restart at INT_MIN, so the next 2^31 ids are negative |
| Drawing.IdCounter.constructor | src/fr/ubs/scribble/Figure.java:19 | the static LAST_ID starts at 0, Java's default for an `int` field |
| Drawing.IdCounter.Next | src/fr/ubs/scribble/Figure.java:56 | the counter advances by `NextId` and the new value is returned |
| Drawing.MakeRectangle | src/fr/ubs/scribble/Figure.java:256-267 | the result has non-negative sizes and covers the same horizontal and vertical extent as the input |
| Drawing.MakeRectangleOfNormal | src/fr/ubs/scribble/Figure.java:256-267 | a box with non-negative sizes is returned unchanged |
| Drawing.MakeRectangleIdempotent | src/fr/ubs/scribble/Figure.java:256-267 | normalising twice gives the same box as normalising once |
| Drawing.Figure.constructor | src/fr/ubs/scribble/Figure.java:54-60 | a new figure takes the next counter value as its id, has the given shape and colour, a fresh box of size zero at (x, y), and is not selected, so it is empty |
| Drawing.Figure.IsInside | src/fr/ubs/scribble/Figure.java:89-93 | a point is inside exactly when it lies in the box grown by 2 on every side |
| Drawing.Figure.GetBorderLocation | src/fr/ubs/scribble/Figure.java:101-116 | the north, south, west and east components of the result match the 4-unit bands, with north before south and west before east; a point in no band gives none |
| Drawing.Figure.SetSelected | src/fr/ubs/scribble/Figure.java:133-136 | only the selection flag changes |
| Drawing.Figure.SetColor | src/fr/ubs/scribble/Figure.java:213-216 | only the colour changes |
| Drawing.Figure.SetX | src/fr/ubs/scribble/Figure.java:193-196 | the box changes as the figure's shape's `setX` says |
| Drawing.Figure.SetY | src/fr/ubs/scribble/Figure.java:203-206 | the box changes as the figure's shape's `setY` says |
| Drawing.Figure.SetWidth | src/fr/ubs/scribble/Figure.java:223-226 | the box changes as the figure's shape's `setWidth` says |
| Drawing.Figure.SetHeight | src/fr/ubs/scribble/Figure.java:234-237 | the box changes as the figure's shape's `setHeight` says |
| Drawing.Figure.Update | src/fr/ubs/scribble/Figure.java:273-281 | the box becomes `MakeRectangle` of its old coordinates: negative sizes are flipped and the corner moves |
| Drawing.Figure.IsEmpty | src/fr/ubs/scribble/Figure.java:77-80 | a figure is empty exactly when its area, width times height, is zero |
| Drawing.DrawnCornersInside | src/fr/ubs/scribble/Figure.java:89-93 | both ends of the drag that drew a figure lie in the hit box of the normalised figure, whichever way the drag went |
| FigureLists.WithoutId | src/fr/ubs/scribbleOnline/CallbackImpl.java:36-37 | the figures with another id, each taken from the list |
| FigureLists.FirstIndex | src/fr/ubs/scribbleOnline/FiguresBoxImpl.java:36 | the first position holding the object |
| FigureLists.RemoveFirst | src/fr/ubs/scribbleOnline/FiguresBoxImpl.java:36 | `remove(Object)` without `equals`: the list minus its first occurrence of the same object, or the same list when the object is absent |
| FigureLists.RemoveFirstMultiset | src/fr/ubs/scribbleOnline/FiguresBoxImpl.java:36 | removal takes away exactly one occurrence when there is one, so the length drops by one or stays |
| FigureLists.RemoveFirstKeepsDistinct | src/fr/ubs/scribbleOnline/FiguresBoxImpl.java:36 | removal keeps ids distinct |
| FigureLists.RemoveFirstKeepsOthers | src/fr/ubs/scribbleOnline/CallbackImpl.java:36 | removing a figure with some id leaves the figures with other ids, in order |
| FigureLists.AppendKeepsOthers | src/fr/ubs/scribbleOnline/CallbackImpl.java:37 | appending a figure with some id leaves the figures with other ids, in order |
| FigureLists.LastIndexOfId | src/fr/ubs/scribbleOnline/CallbackImpl.java:20-25 | the last position with the id, or -1 exactly when no figure has it |
| FigureLists.FrontMost | src/fr/ubs/scribble/Figures.java:109-117 | a found figure is in the list and the point is inside it |
| FigureLists.FrontMostNone | src/fr/ubs/scribble/Figures.java:109-117 | nothing is found exactly when no figure's hit box holds the point |
| FigureLists.FrontMostOnTop | src/fr/ubs/scribble/Figures.java:109-117 | a found figure sits at a position after which no hit box holds the point |
| FigureLists.Figures.constructor | src/fr/ubs/scribble/Figures.java:13-18 | a new list is empty, with no figure in progress |
| FigureLists.Figures.Add | src/fr/ubs/scribble/Figures.java:79 | appends the figure; the figure in progress is kept |
| FigureLists.Figures.Remove | src/fr/ubs/scribble/FiguresCanvas.java:485 | removes the first occurrence of the same object and reports whether there was one |
| FigureLists.Figures.CreateFigure | src/fr/ubs/scribble/Figures.java:49-52 | the figure in progress becomes a new, empty figure with the next id; the list is unchanged |
| FigureLists.Figures.ResizeCurrentFigure | src/fr/ubs/scribble/Figures.java:60-66 | the figure in progress gets the width, then the height, through its shape; with none, nothing changes |
| FigureLists.Figures.AddCurrentFigure | src/fr/ubs/scribble/Figures.java:73-83 | a non-empty figure in progress is normalised, appended and returned; otherwise the result is null and the list is unchanged; no figure is in progress afterwards |
| FigureLists.Figures.UpdateCurrentFigure | src/fr/ubs/scribble/Figures.java:90-99 | a non-empty figure in progress is normalised and returned; the list never changes; no figure is in progress afterwards |
| FigureLists.Figures.GetFigureAt | src/fr/ubs/scribble/Figures.java:109-117 | the backward scan returns `FrontMost`: the highest-index figure whose hit box holds the point, or null |
| Server.BroadcastCallsEach | src/fr/ubs/scribbleOnline/FiguresBoxImpl.java:24-31 | a broadcast makes one call per callback, in registration order, all with the same figure; a failing call does not stop the later ones |
| Server.AddIfNewSpec | src/fr/ubs/scribbleOnline/FiguresBoxImpl.java:15-22 | a new id is appended after the unchanged earlier figures; a known id leaves the store as it is; distinct ids stay distinct |
| Server.ReplaceById | src/fr/ubs/scribbleOnline/FiguresBoxImpl.java:59-63 | the intended update: each figure with the id is replaced and every other position is kept |
| Server.ReplaceByIdSpec | src/fr/ubs/scribbleOnline/FiguresBoxImpl.java:59-63 | the intended update keeps every position's id, hence distinct ids, and contains the figure exactly when its id was stored |
| Server.UpdateLeavesStaleFigure | src/fr/ubs/scribbleOnline/FiguresBoxImpl.java:59-63 | as soon as another object with the id is stored, the store left as it is differs from the intended one |
| Server.FiguresBoxImpl.constructor | src/fr/ubs/scribbleOnline/FiguresBoxImpl.java:41-44 | a new box has an empty store and no callbacks |
| Server.FiguresBoxImpl.AddFigure | src/fr/ubs/scribbleOnline/FiguresBoxImpl.java:14-32 | the store becomes `AddIfNew` of the old one; a new id calls every callback once through `Broadcast`, a known id calls nobody; the callbacks are unchanged and distinct ids stay distinct |
| Server.FiguresBoxImpl.NotifyAll | src/fr/ubs/scribbleOnline/FiguresBoxImpl.java:24-31 | the log grows by exactly `Broadcast` of the callbacks |
| Server.FiguresBoxImpl.RemoveFigure | src/fr/ubs/scribbleOnline/FiguresBoxImpl.java:35-39 | the store loses its first occurrence of the same object; the argument is returned; no callback is called; distinct ids stay distinct |
| Server.FiguresBoxImpl.GetFigures | src/fr/ubs/scribbleOnline/FiguresBoxImpl.java:47-49 | returns the store itself, in insertion order |
| Server.FiguresBoxImpl.RegisterCallback | src/fr/ubs/scribbleOnline/FiguresBoxImpl.java:52-54 | appends exactly one callback; the store is untouched |
| Server.FiguresBoxImpl.UpdateFigure | src/fr/ubs/scribbleOnline/FiguresBoxImpl.java:57-72 | as written: the store and the callbacks are unchanged, and every callback is called with the figure |
| Server.FiguresBoxImpl.ReplaceFigure | src/fr/ubs/scribbleOnline/FiguresBoxImpl.java:57-72 | corrected: the store becomes `ReplaceById` of the old one, every callback is called with the figure, and distinct ids stay distinct |
| Mirror.MirrorEdit | src/fr/ubs/scribbleOnline/CallbackImpl.java:17-40 | the edited figure ends up last; with a new id the mirror becomes old ++ [figure]; with a known id the length is unchanged |
| Mirror.MirrorEditKeepsOthers | src/fr/ubs/scribbleOnline/CallbackImpl.java:36-37 | the figures with other ids keep their relative order |
| Mirror.MirrorEditReplaces | src/fr/ubs/scribbleOnline/CallbackImpl.java:20-25 | with distinct ids, the figure at the id's position is removed and the new one appended |
| Mirror.AppendNewId | src/fr/ubs/scribbleOnline/CallbackImpl.java:30 | appending a figure with a new id keeps ids distinct and makes it the only one with its id |
| Mirror.RemoveIdLeavesNone | src/fr/ubs/scribbleOnline/CallbackImpl.java:36 | with distinct ids, removing the remembered figure leaves no figure with that id |
| Mirror.MirrorEditKeepsDistinct | src/fr/ubs/scribbleOnline/CallbackImpl.java:18-39 | distinct ids stay distinct, and afterwards exactly one figure, the last, carries the edited figure's id |
| Mirror.CallbackImpl.constructor | src/fr/ubs/scribbleOnline/CallbackImpl.java:12-14 | the callback belongs to the given client's canvas |
| Mirror.CallbackImpl.Edit | src/fr/ubs/scribbleOnline/CallbackImpl.java:17-40 | the scan finds the last figure with the id; the figure's flag is cleared; the mirror becomes `MirrorEdit` of the old one |
| Canvas.MovedBox | src/fr/ubs/scribble/FiguresCanvas.java:378-380 | a move keeps the size and shifts the start location by exactly the mouse's displacement, so bringing the mouse back restores it |
| Canvas.WestResizeKeepsRightEdge | src/fr/ubs/scribble/FiguresCanvas.java:382-384 | a west resize keeps the right edge where it was at the press, unless a Circle or Square is also resized vertically |
| Canvas.NorthResizeKeepsBottomEdge | src/fr/ubs/scribble/FiguresCanvas.java:388-390 | a north resize keeps the bottom edge where it was at the press |
| Canvas.EastSouthResizeKeepCorner | src/fr/ubs/scribble/FiguresCanvas.java:385-393 | east and south resizes never move the corner; a pure east or south one changes only its own size |
| Canvas.ResizedBox | src/fr/ubs/scribble/FiguresCanvas.java:381-393 | resizing a Circle or Square in any direction leaves it square |
| Canvas.FiguresCanvas.constructor | src/fr/ubs/scribble/FiguresCanvas.java:184-197 | a canvas over the given figures with nothing selected and no mode set |
| Canvas.FiguresCanvas.SetShape | src/fr/ubs/scribble/FiguresCanvas.java:234-238 | only the current shape changes |
| Canvas.FiguresCanvas.SetColor | src/fr/ubs/scribble/FiguresCanvas.java:245-260 | the colour changes; a selected figure takes it and one update request is sent; with no selection no request is sent |
| Canvas.FiguresCanvas.SetMoveCursor | src/fr/ubs/scribble/FiguresCanvas.java:425-463 | away from the borders sets move mode; at a border sets resize mode with that border's direction |
| Canvas.FiguresCanvas.Select | src/fr/ubs/scribble/FiguresCanvas.java:530-547 | the figure becomes the selection; reselecting changes nothing; otherwise the old selection loses its flag and a new figure gets its flag and sets the mode |
| Canvas.FiguresCanvas.Unselect | src/fr/ubs/scribble/FiguresCanvas.java:514-521 | a selection with the figure's id is cleared along with its flag; otherwise nothing changes |
| Canvas.FiguresCanvas.KeyPressed | src/fr/ubs/scribble/FiguresCanvas.java:482-496 | Delete with a selection removes that object, sends one remove request and clears the selection; any other key, or no selection, changes nothing |
| Canvas.FiguresCanvas.MousePressed | src/fr/ubs/scribble/FiguresCanvas.java:269-284 | the press location is recorded; in move or resize mode the selection's box is recorded, or throws when there is none; otherwise a new figure is started |
| Canvas.FiguresCanvas.MoveSelected | src/fr/ubs/scribble/FiguresCanvas.java:378-380 | the selected figure's box becomes `MovedBox` |
| Canvas.FiguresCanvas.ResizeSelected | src/fr/ubs/scribble/FiguresCanvas.java:381-393 | the selected figure's box becomes `ResizedBox` for the resize direction |
| Canvas.FiguresCanvas.MouseDragged | src/fr/ubs/scribble/FiguresCanvas.java:366-399 | dragging starts past the 2-unit threshold and clears the selection outside move and resize mode; it then moves or resizes the selection (throwing when there is none) or resizes the figure in progress; below the threshold no box or flag changes, and a move or resize leaves the figure in progress and the selection's flag alone, as drawing leaves the old selection's box |
| Canvas.FiguresCanvas.FinishNewFigure | src/fr/ubs/scribble/FiguresCanvas.java:298-307 | the figure in progress is added unless empty, becomes the selection, and one add request is sent for it, null included, and the release ends in the NullPointer outcome exactly when null is sent or the server's store already holds a null; a newly selected figure is flagged and sets the move or resize mode from the mouse's border location, the old selection loses its flag, and when the selection does not change to a figure the mode stays |
| Canvas.FiguresCanvas.FinishEdit | src/fr/ubs/scribble/FiguresCanvas.java:308-317 | a selected figure is normalised and one update request is sent, ending in the NullPointer outcome exactly when the server's store holds a null; with no selection nothing happens |
| Canvas.FiguresCanvas.SelectAt | src/fr/ubs/scribble/FiguresCanvas.java:318-321 | the front-most figure under the mouse, or null, becomes the selection; a newly selected figure is flagged and sets the move or resize mode from the mouse's border location, the old selection loses its flag, and otherwise the mode stays; every other figure, and a reselected one, keeps its flag |
| Canvas.FiguresCanvas.MouseReleased | src/fr/ubs/scribble/FiguresCanvas.java:293-323 | for each release case (new figure, edit, click) the selection, the list, the outbox, the selection flags of every listed figure and the move or resize mode; a click changes no box, an edit leaves the figure in progress alone; dragging ends except when the server throws back, which leaves the canvas dragging: after a drag that drew nothing (a null add), or after any add or update once the server's store holds a null |
| Canvas.FiguresCanvas.MouseMoved | src/fr/ubs/scribble/FiguresCanvas.java:408-423 | outside a drag, hovering over the selected front-most figure sets its mode; anywhere else both modes are cleared; during a drag nothing changes |
| ShapesFactory.RemoveExtension | src/fr/ubs/scribble/ShapesFactory.java:138-144 | with the extension, the result plus the extension is the name; without it, the name is unchanged |
| ShapesFactory.Replace | src/fr/ubs/scribble/ShapesFactory.java:97 | every occurrence of the pattern character is rewritten and every other character kept |
| ShapesFactory.ReplaceRoundTrip | src/fr/ubs/scribble/ShapesFactory.java:97-123 | rewriting '.' to '/' and back restores a name that had no '/' |
| ShapesFactory.PackagePath | src/fr/ubs/scribble/ShapesFactory.java:97 | the package path has the package name's length, each '.' of the name becomes '/', and every other character stays |
| ShapesFactory.JarClassNameSpec | src/fr/ubs/scribble/ShapesFactory.java:122-123 | a class entry's name drops the 6-character suffix, turns each '/' into '.', and keeps every other character |
| ShapesFactory.DirectoryClassNameSpec | src/fr/ubs/scribble/ShapesFactory.java:101 | a class file's name is the package, a dot, and the file name without ".class" |
| ShapesFactory.JarAgreesWithDirectory | src/fr/ubs/scribble/ShapesFactory.java:97-123 | the jar entry of a class file of the package is kept and names the same class as the file found in the directory |
| ShapesFactory.ListJarfile | src/fr/ubs/scribble/ShapesFactory.java:115-129 | the names are exactly the class names of the kept entries |
| ShapesFactory.ListClassFiles | src/fr/ubs/scribble/ShapesFactory.java:100-102 | the names are exactly the class names of the files ending with ".class" |
| ShapesFactory.ListDirectory | src/fr/ubs/scribble/ShapesFactory.java:94-105 | no names without a package directory; otherwise the names of its class files |
| Launch.HelpIsNotDigits | src/fr/ubs/scribbleOnline/ScribbleServeur.java:23 | "-h" and "--help" fail the digit test |
| Launch.DecimalValueBound | src/fr/ubs/scribbleOnline/ScribbleClient.java:79 | n digits make a number below 10^n |
| Launch.NineDigitsFit | src/fr/ubs/scribbleOnline/ScribbleClient.java:79 | a port of at most nine digits always fits in an `int` |
| Launch.ServerTestLaunch | src/fr/ubs/scribbleOnline/ScribbleServeur.java:22-26 | the server's check returns exactly for one argument made of digits; the help checks add nothing |
| Launch.ServerLaunch | src/fr/ubs/scribbleOnline/ScribbleServeur.java:27-34 | corrected launch: a server starts exactly for one digit argument whose value fits in an `int`, on that port |
| Launch.ServerNeverStarts | src/fr/ubs/scribbleOnline/ScribbleServeur.java:18-26 | as written, "8080" is accepted and nothing is started, whereas the corrected launch listens on 8080 |
| Launch.ClientTestLaunch | src/fr/ubs/scribbleOnline/ScribbleClient.java:71-79 | the client's arguments pass exactly when there are two, the first is not a help option and the second is digits |
| Launch.ClientConnects | src/fr/ubs/scribbleOnline/ScribbleClient.java:79 | accepted arguments connect to the given host on the port's value when it fits in an `int`, and otherwise raise NumberFormatException |

## Left out

- Remote method invocation is not modelled: the registry, `lookup`/`rebind`, `exportObject`, serialisation and the `ScribbleClient` constructor. A callback is an endpoint, and a failing call is given as input. Over a real connection, arguments and results arrive as copies; here the same objects are shared. One consequence: a real `removeFigure` receives a deserialised copy, so the identity-based `remove` at FiguresBoxImpl.java:36 never matches, the server keeps every deleted figure, and no client hears of the deletion. Server.FiguresBoxImpl.RemoveFigure removes only because the model shares objects.
- Concurrency is not modelled; every call runs on its own, one after another.
- Swing is not modelled: painting, cursor appearance, `repaint`, focus and listener registration. The canvas's scale transform (`getX`/`getY`, `paintComponent`) is left out, and the handlers take coordinates already in canvas units.
- Floating point is modelled as exact real arithmetic; IEEE rounding is ignored.
- Reflection and file I/O in ShapesFactory are not modelled: `makeShapes`, the class-path split, the file listing and the zip stream. The directory's files and the jar's entries are given as sequences.
- `System.exit`, `printUsage` and console logging have no effect in the model. Printing the usage is an outcome.
- Server.FiguresBoxImpl.AddFigure: takes a non-null figure, so it does not model `addFigure(null)`. The canvas sends null when a drag that drew nothing ends (FiguresCanvas.java:299-303). The server always throws on it. With a non-empty store, line 17 calls `getId()` on the null argument and nothing is stored. With an empty store the scan does nothing, line 22 stores the null, and line 23 (`figure.toString()`) throws. Only in that second case, which arises only when the empty drag is the server's first add (a real `removeFigure` never empties the store, see above), does the stored null then make every later `addFigure` throw at line 17 before storing or broadcasting, and every `updateFigure` throw at line 60. The model does not capture the server side of this. The canvas side is modelled by the NullPointer outcome of FinishNewFigure, FinishEdit and MouseReleased: the null add itself always gives it, and whether the server's store already holds a null is an input (`serverHoldsNull`) of those three methods, since the canvas cannot see the server's store.
- Canvas.FiguresCanvas.MouseReleased: its own contract gives the selection, the list, the outbox, the selection flags and the mode for each case, and the boxes a click or an edit leaves. The normalised box of a new or edited figure is stated one level down, by FinishNewFigure and FinishEdit, and in the new-figure case the old selection's box is not stated.
- Canvas.FiguresCanvas.MouseDragged: the box of the figure in progress and the selection's box are stated unchanged only when the two are different rectangle objects. Every Figure constructs its own rectangle, but the model does not carry that fact from figure to figure; the same condition appears in MouseReleased's edit case.
- The Delete key clears the selection but, as in the source, leaves the move and resize modes set. A press with no mouse move in between then takes the `NullPointer` outcome of MousePressed; a move in between clears both modes (FiguresCanvas.java:418-421).
- Drawing.Figure.GetBorderLocation: states the four components of the result; which of the eight directions it is follows from them via Compass.ComponentsDetermineDirection.
- Shapes loaded from the class path at run time (`Loaded`) use the default setters. An override they might define is not modelled.
- `FiguresBox.java` and `Callback.java` only declare interfaces. `Oval.java` and `Rectangle.java` add only a name and drawing, and their setters are Shape's defaults.
- The client's callback registration after connecting (ScribbleClient.java:80) is part of the remote plumbing left out above.

## Findings

| source | as written | input that shows it | evidently intended | confidence | as-written member | corrected member |
|---|---|---|---|---|---|---|
| src/fr/ubs/scribbleOnline/FiguresBoxImpl.java:59-63 | `f = figure` only rebinds the lambda's parameter, so the store keeps the old object | store [a] with a.id == 7, then updateFigure(b) with b.id == 7 and b a different object: the store stays [a] | the stored figure with that id is replaced by the new one | not executed; high | Server.UpdateLeavesStaleFigure | Server.FiguresBoxImpl.ReplaceFigure |
| src/fr/ubs/scribbleOnline/ScribbleServeur.java:18-26 | `main` only runs `testlaunch`, which checks the arguments and returns; the constructor is never called | arguments ["8080"]: accepted, and no server is constructed | a valid port starts a server on that port (the constructor at lines 27-34) | not executed; medium | Launch.ServerNeverStarts | Launch.ServerLaunch |
