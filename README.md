# Paint editor figures and input states, and the tic-tac-toe board logic

This project models in Dafny the core of two small desktop programs from one
repository.

- **paint2.0** is a paint editor.
  - `figures.py` defines four figures: rectangle, triangle, ellipse and line.
    Each figure is sized from the point where the drag began (its *anchor*) to
    the current pointer position. A drag rectangle is normalised so that it
    never has a negative size.
  - `graphic_editor.py` defines the editor.
    - It has two input states. One places a figure on press and resizes it
      while the pointer moves. The other draws freehand, as a chain of one-step
      lines.
    - It has command objects that change the pen, switch the state or add
      items.
    - It has a scene that forwards every press, move and release to the
      current state.
- **cross_and_circle** is a tic-tac-toe game.
  - The board is a list of nine entries. Each entry starts as the cell's own
    index, so two empty cells are never equal, and a move writes a marker
    into it.
  - Each cell's sprite has a `selectable` flag, which lets its image be set
    only once.
  - The win check scans eight fixed lines in order.
  - The computer opponent takes the first free cell in a fixed preference
    order: centre, then corners, then edges.
  - A click is ignored while the win check is truthy.

## Layout

- `wrappers.dfy`: the `Option` type.
- `figures.dfy` (module `Figures`) holds two kinds of definition:
  - pure geometry: points, rectangles, the drag rectangle, the inscribed
    triangle, and the geometry each figure kind gets on resize;
  - the `Figure` class, whose fields (anchor, geometry, pen) the editor
    updates in place.
- `graphic_editor.dfy` (module `GraphicEditor`) holds the classes
  `AddFigureState`, `DrawingState` and `Painter`.
  - The scene is a `seq<Item>` field.
  - A placed figure is held by reference, so resizing it changes the item
    that is already in the scene.
  - The commands are `Painter` methods.
- `cross_and_circle.dfy` (module `CrossAndCircle`) holds two layers:
  - Specification functions on an abstract `GameState`: the board, the
    selectable flags, the images, the player to move and the end flag. They
    are `CheckWinResult`, `AfterCheckWin`, `Play`, `ClickOf` and
    `ComputerMoveOf`. Lemmas about them state the game's properties.
  - The imperative `Game` class, which has a `board` array and a sequence of
    `GameItem` sprites. Each of its methods is proved to move its abstract
    state exactly as the matching specification function does.

## Model

| member | source | states |
|---|---|---|
| Figures.GetRect | paint2.0/figures.py:15-35 | The drag rectangle from the anchor to the pointer is the two points' bounding rectangle, with non-negative width and height, in all four drag directions. |
| Figures.GetRectCorners | paint2.0/figures.py:24-33 | The top-left corner is the component-wise minimum of the two points and the bottom-right corner is their maximum. The two points are diagonally opposite corners of the rectangle. |
| Figures.GetRectSymmetric | paint2.0/figures.py:24-33 | Swapping anchor and pointer gives the same rectangle. |
| Figures.TriangleVertices | paint2.0/figures.py:64-68 | There are three vertices: the bottom-left and bottom-right corners, and an apex on the top edge at the floored horizontal midpoint. For a non-negative width the apex lies within the top edge. |
| Figures.ResizedGeometry | paint2.0/figures.py:49-93 | The geometry always has the shape its kind's item holds. A rectangle or ellipse gets the bounding rectangle. A triangle gets the triangle inscribed in it. A line gets the segment from anchor to pointer, as it is. |
| Figures.LineKeepsDragDirection | paint2.0/figures.py:89-93 | A line is not normalised: when dragged up and to the left, its first point is the anchor, not the drag rectangle's top-left corner. |
| Figures.Figure.constructor | paint2.0/figures.py:44-47 | A new item of a kind has no anchor, the kind's empty geometry and the default pen. |
| Figures.Figure.SetStartPoint | paint2.0/figures.py:37-38 | The anchor becomes the given point. |
| Figures.Figure.SetPen | paint2.0/figures.py:40-41 | The item holds the given pen, and nothing else changes. |
| Figures.Figure.Resize | paint2.0/figures.py:49-93 | Without an anchor the geometry is unchanged. Otherwise it becomes the kind's resized geometry from the anchor to the point. The item's invariant is kept. |
| GraphicEditor.Strokes | paint2.0/graphic_editor.py:145-146 | There is one line item per line, in the same order. |
| GraphicEditor.StrokesAppend | paint2.0/graphic_editor.py:145-146 | Adding one more line adds one more item at the end. |
| GraphicEditor.ChainedExtend | paint2.0/graphic_editor.py:81-88 | Appending a line that starts where the last one ended keeps the stroke connected. |
| GraphicEditor.AddFigureState.constructor | paint2.0/graphic_editor.py:19-20 | The state starts with no drag, no points and no figure. |
| GraphicEditor.AddFigureState.MousePress | paint2.0/graphic_editor.py:48-58 | A left press starts a drag at the press point. It makes a fresh figure of the current kind, anchored there, with the painter's pen and empty geometry, and appends it to the scene at once. Other buttons change nothing. |
| GraphicEditor.AddFigureState.MouseMove | paint2.0/graphic_editor.py:60-63 | While the left button is held during a drag, the last point becomes the pointer and the placed figure takes the resized geometry. Otherwise the point and the figure are unchanged. The figure's pen and anchor are never changed, and neither are the drag flag and the anchor of the state. |
| GraphicEditor.AddFigureState.MouseRelease | paint2.0/graphic_editor.py:65-67 | A left release ends the drag. Any other button leaves the flag as it was. |
| GraphicEditor.DrawingState.constructor | paint2.0/graphic_editor.py:19-20 | The state starts with no drag, no start point and an empty stroke. |
| GraphicEditor.DrawingState.MousePress | paint2.0/graphic_editor.py:75-79 | A left press starts an empty stroke at the press point. Other buttons change nothing. |
| GraphicEditor.DrawingState.MouseMove | paint2.0/graphic_editor.py:81-88 | While drawing, a move appends the line from the previous point to the pointer, with the painter's pen, to both the stroke and the scene, and the pointer becomes the previous point. The stroke stays connected. |
| GraphicEditor.DrawingState.MouseRelease | paint2.0/graphic_editor.py:90-93 | A left release ends the stroke. The scene is untouched, because the add-curve command is built but not executed. |
| GraphicEditor.Painter.constructor | paint2.0/graphic_editor.py:152-173 | The editor starts in freehand drawing, with lines as the figure kind, a red pen of width 2, an empty scene and both states idle. |
| GraphicEditor.Painter.AddItem | paint2.0/graphic_editor.py:86-87 | The item is appended to the scene. |
| GraphicEditor.Painter.ChangeColorPen | paint2.0/graphic_editor.py:106-109 | Only the pen's colour changes. |
| GraphicEditor.Painter.ChangeState | paint2.0/graphic_editor.py:112-119 | A figure kind selects the add-figure state and no kind selects freehand drawing. The kind is recorded as the one the next press creates. The editor invariant is kept. |
| GraphicEditor.Painter.ChangeWidthPen | paint2.0/graphic_editor.py:122-125 | Only the pen's width changes. |
| GraphicEditor.Painter.AddFigure | paint2.0/graphic_editor.py:128-135 | The figure is appended to the scene. |
| GraphicEditor.Painter.AddCurve | paint2.0/graphic_editor.py:138-146 | The scene becomes the old scene followed by one item per line of the command, in order. |
| GraphicEditor.Painter.MousePress | paint2.0/graphic_editor.py:175-177 | The press goes to the current state only: the other state is untouched. In the add-figure state a left press anchors both points of the drag at the press point. It appends a fresh figure of the current kind with the current pen to the scene while the figure still has its empty geometry. In freehand drawing it starts an empty stroke. The editor invariant is kept. |
| GraphicEditor.Painter.MouseMove | paint2.0/graphic_editor.py:179-181 | The move goes to the current state only, and the other state is untouched. In the add-figure state the drag flag, the anchor, the placed figure and its pen are kept. A held move during a drag resizes the figure from the anchor to the pointer, and any other move changes nothing. In freehand drawing a held move extends the stroke and the scene by one line, and any other move changes nothing. The editor invariant is kept. |
| GraphicEditor.Painter.MouseRelease | paint2.0/graphic_editor.py:183-185 | The release clears the drag flag of the current state only, and the editor invariant is kept. |
| GraphicEditor.PressAndDrag | paint2.0/graphic_editor.py:48-63 | In the add-figure state, a left press at a and a held move to b leave one new figure of the current kind in the scene, sized from a to b. A following move without the button leaves the figure as it is. |
| CrossAndCircle.WinCheck.Truthy | cross_and_circle/cross_and_circle.py:238-238 | Python's truth value of what the win check returns: 1 once the game is over is true, False is false, and a marker is true, while the empty entry of cell 0 (the integer 0) would be false. |
| CrossAndCircle.InitialState | cross_and_circle/cross_and_circle.py:84-100 | The constructed game is well formed. Each board entry is its own index, every cell is selectable with no image, player 1 moves and the game is not over. |
| CrossAndCircle.CheckWinResult | cross_and_circle/cross_and_circle.py:175-192 | The check answers "over" exactly when the end flag is set. It answers "no winner" exactly when the game is not over and no line has three equal entries. A reported winner is the entry of some equal line. |
| CrossAndCircle.AfterCheckWin | cross_and_circle/cross_and_circle.py:175-192 | The check changes only the end flag, and the flag is set afterwards exactly when it was set before or some line has three equal entries. |
| CrossAndCircle.UniformLineIsMarked | cross_and_circle/cross_and_circle.py:176-182 | On a board of own indices and markers, an equal line consists of three distinct cells that all hold a marker. |
| CrossAndCircle.Play | cross_and_circle/cross_and_circle.py:241-244 | A move on cell n writes the player's marker into entry n and leaves n unselectable. The image of n is set only if the cell was selectable. Every other cell, the turn and the end flag are unchanged. |
| CrossAndCircle.ClickOf | cross_and_circle/cross_and_circle.py:237-246 | A click on no cell, or once the game is over, changes neither the board, the flags, the images nor the turn, and a game that is over stays over. An accepted click writes the current player's marker into the hit cell and passes the turn. |
| CrossAndCircle.ComputerChoice | cross_and_circle/cross_and_circle.py:195-198 | The chosen cell is selectable, and it is the entry of the preference table before which no entry is selectable. |
| CrossAndCircle.ComputerMoveOf | cross_and_circle/cross_and_circle.py:194-203 | Without a selectable cell the state is unchanged. Otherwise the chosen cell gets the current player's marker and image and becomes unselectable, and the turn passes. The end flag is never touched, because the computer's move runs no win check. |
| CrossAndCircle.OpeningExchangeOf | cross_and_circle/cross_and_circle.py:194-246 | On a new game, a click on the centre followed by the computer's move leaves the first player's marker in the centre and the second player's in corner 0. The game is not over and the turn is back with the first player. |
| CrossAndCircle.OpeningExchange | cross_and_circle/cross_and_circle.py:194-246 | A new imperative game, clicked in the centre and then moved by the computer, is valid and in the state that OpeningExchangeOf describes. |
| CrossAndCircle.OtherPlayer | cross_and_circle/cross_and_circle.py:169-173 | The next player differs from the current one, and player 1 is followed exactly by player 2. |
| CrossAndCircle.OtherPlayerTwice | cross_and_circle/cross_and_circle.py:169-173 | Two turns give the move back to the same player. |
| CrossAndCircle.FirstUniform | cross_and_circle/cross_and_circle.py:181-182 | The found line's three entries are equal and no earlier line's are. When no line is found, no line from the start point on has equal entries. |
| CrossAndCircle.FirstUniformAt | cross_and_circle/cross_and_circle.py:181-182 | A line with equal entries, with none before it, is the one the scan finds. |
| CrossAndCircle.CheckWinFindsFirstLine | cross_and_circle/cross_and_circle.py:175-192 | Once the game is over the check answers at once and changes nothing. Otherwise it reports a winner exactly when some line is uniform: the first such line in table order, returning that line's entry and setting the end flag. With no winner nothing changes. |
| CrossAndCircle.WinnerIsMarker | cross_and_circle/cross_and_circle.py:181-191 | On a well-formed board a winning line holds three equal markers and never empty cells, so the returned entry is truthy. |
| CrossAndCircle.InitialStateNoWinner | cross_and_circle/cross_and_circle.py:79-103 | The initial game is well formed, has no winner, and the win check leaves it unchanged. |
| CrossAndCircle.SetImageOf | cross_and_circle/cross_and_circle.py:67-72 | The cell's image is set only if the cell was selectable, and afterwards it is not selectable. Every other cell, the board, the turn and the end flag are unchanged. |
| CrossAndCircle.PlayPreservesWellFormed | cross_and_circle/cross_and_circle.py:241-244 | A move keeps the invariant (a cell is selectable iff it is empty iff it has no image), whether or not the cell was free. |
| CrossAndCircle.FirstSelectable | cross_and_circle/cross_and_circle.py:196-198 | The found preference entry is a selectable cell and every earlier one is not. When nothing is found, no entry from the start point on is selectable. |
| CrossAndCircle.ComputerChoiceSound | cross_and_circle/cross_and_circle.py:194-203 | The computer plays only a selectable cell, and it plays one exactly when some cell is selectable. |
| CrossAndCircle.ComputerMoveAt | cross_and_circle/cross_and_circle.py:194-203 | When preference entry k is the first selectable one, the computer marks that cell and passes the turn, and the state stays well formed. |
| CrossAndCircle.ComputerPrefersCentreThenCorners | cross_and_circle/cross_and_circle.py:195-198 | A free centre is taken first. Failing that, a free corner is taken before any edge. |
| CrossAndCircle.ComputerOpensInCentre | cross_and_circle/cross_and_circle.py:195-203 | On the fresh board the computer takes the centre. |
| CrossAndCircle.StepsPreserveWellFormed | cross_and_circle/cross_and_circle.py:237-246 | The win check, a click and the computer's move each keep the invariant. |
| CrossAndCircle.ClickMarksCellAndPassesTurn | cross_and_circle/cross_and_circle.py:241-246 | An accepted click writes the current player's marker into the hit cell and passes the turn. On a taken cell the entry is overwritten while the images stay as they were. On a free cell that cell gets the player's image. |
| CrossAndCircle.ClickIgnoredOnceOver | cross_and_circle/cross_and_circle.py:238-238 | While the win check is truthy a click changes none of the board, the flags, the images or the turn, and the game is over. |
| CrossAndCircle.PlayKeepsSetImages | cross_and_circle/cross_and_circle.py:67-72 | A move leaves every image that is already set unchanged. |
| CrossAndCircle.ClickKeepsSetImages | cross_and_circle/cross_and_circle.py:237-246 | A click never changes an image once it is set, and a game that is over stays over. |
| CrossAndCircle.ComputerMoveKeepsSetImages | cross_and_circle/cross_and_circle.py:194-203 | The computer's move never changes an image once it is set, and keeps the end flag. |
| CrossAndCircle.GameItem.constructor | cross_and_circle/cross_and_circle.py:47-51 | A new cell sprite has its number, is selectable and shows no image. |
| CrossAndCircle.GameItem.SetImage | cross_and_circle/cross_and_circle.py:67-72 | The image is set only while the sprite is selectable, and afterwards it is not selectable. |
| CrossAndCircle.InitGrid | cross_and_circle/cross_and_circle.py:137-145 | The grid is nine fresh, distinct sprites numbered 0 to 8 in row order, all selectable and with no image. |
| CrossAndCircle.Game.constructor | cross_and_circle/cross_and_circle.py:79-103 | The game starts in the initial state: each board entry is its own index, every cell is selectable with no image, player 1 moves first and the game is not over. The board and the nine sprites are new objects. |
| CrossAndCircle.Game.NextPlayer | cross_and_circle/cross_and_circle.py:169-173 | Only the turn changes, and it passes to the other player. |
| CrossAndCircle.Game.FindWinLine | cross_and_circle/cross_and_circle.py:181-182 | The loop returns the first line whose three board entries are equal, or none. |
| CrossAndCircle.Game.CheckWin | cross_and_circle/cross_and_circle.py:175-192 | The result and the new state are those of the win-check specification, whose properties CheckWinFindsFirstLine and WinnerIsMarker state. |
| CrossAndCircle.Game.ComputerMove | cross_and_circle/cross_and_circle.py:194-203 | The new state is the computer-move specification's, which ComputerChoiceSound, ComputerMoveAt and ComputerPrefersCentreThenCorners describe. The invariant is kept. |
| CrossAndCircle.Game.Click | cross_and_circle/cross_and_circle.py:237-246 | The new state is the click specification's: the guarding win check, then the move on the hit cell, a second win check and the turn change. The invariant is kept. |
| CrossAndCircle.Game.ClickCell | cross_and_circle/cross_and_circle.py:241-246 | The hit cell is played (its image set if possible, its entry overwritten), the win check runs and the turn passes. |

## Left out

- Toolkit and window code is not modelled:
  - the Qt widgets, menus, dialogs, saving to a file and clearing the scene;
  - the scene rectangle and the background brush;
  - pygame windows, drawing, fonts, image loading (`load_image`) and sprite
    positions.
  The model keeps only the state these programs change.
- Pixel layout is not modelled: cell positions and sizes, and the hit rectangles of clicks. A click is represented by the index of the cell it hit, or none, and it is always a left-button press. The model assumes a click hits at most one cell. The source does not guarantee this: `set_image` replaces a sprite's rectangle with the loaded image's own rectangle at the same position, and the click loop at cross_and_circle/cross_and_circle.py:241-246 handles every sprite containing the point, each with a board write, a win check and a turn change.
- The game's start screen, the `computer` flag, and the frame loop of `start_game` are not modelled. This includes the per-frame "computer's turn" guard at cross_and_circle/cross_and_circle.py:233-235 and the quit events. The steps these loops call (`computer_move`, a click, `check_win`) are modelled separately.
- The winner caption (`name_winner`), the printed winner name, and the buttons of the start screen are output only and are not modelled.
- Coordinates are floating point in the source and integers here. The triangle apex uses Dafny's `/` by 2, which rounds down like the source's `//`.
- Figures.Figure.SetPen: the source's own `Figure.setPen` calls itself. Because the toolkit item class comes first in each figure's bases, the call reaches the toolkit's pen setter instead. The model is that resolved setter, which keeps a copy of the pen.
- The pen is a value. The toolkit's own pen width default (1, written `DefaultPen`) is used only on the way to the editor's width of 2.
- Attributes that the source sets only on first use (`drawing`, `start_point`, `figure`, `list_line`) start out false, none or empty in the model. The source raises an attribute error if a move event reads `drawing` before the first press. The model treats that case as "not drawing".
- The current state is a reference to a state object in the source and a `Mode` tag here. Each state object receives the painter as a method parameter instead of storing it. The command objects become `Painter` methods. `CommandAddCurve` survives as the `AddCurveCommand` value that a release builds and drops.
- Each state keeps its own drag flag, so a state switch in the middle of a drag leaves it as it was. Switching back to the add-figure state with its flag still set resumes resizing the figure placed last.
- GameItem numbers are passed to the constructor in place of a later `set_number` call.
- A cell's board entry is not protected. Clicking a taken cell overwrites its entry with the current player's marker and leaves its image as it was. The model follows the code, as ClickMarksCellAndPassesTurn states.
- `check_win` returns the entry of the winning line, and the click guard tests its truth value. The model's `Truthy` follows Python: an empty entry is its index, so an entry of 0 would be false. WinnerIsMarker shows that a well-formed board never produces that case.
