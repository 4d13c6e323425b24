/**
 * The paint editor's input states and commands (paint2.0/graphic_editor.py).
 *
 * The editor owns two persistent state objects, one that places resizable figures
 * and one that draws freehand, and forwards every press, move and release to the
 * current one.  The drawing surface is modelled as the sequence of items added to
 * it.  A placed figure is held by reference, so the figure that the add-figure
 * state resizes is the very item already in the scene.
 */
module GraphicEditor {
  import opened Wrappers
  import opened Figures

  datatype Button = LeftButton | RightButton | MiddleButton

  /** A one-step freehand line item with the pen it was drawn with. */
  datatype LineItem = LineItem(line: Segment, pen: Pen)

  /** An item of the drawing surface. */
  datatype Item = Shape(figure: Figure) | Stroke(stroke: LineItem)

  /** An add-curve command as built from a finished stroke: the lines it would add. */
  datatype AddCurveCommand = AddCurveCommand(lines: seq<LineItem>)

  /** Which of the two state objects receives the pointer events. */
  datatype Mode = AddingFigure | FreehandDrawing

  /** The scene items for a list of freehand lines, in order. */
  function Strokes(lines: seq<LineItem>): (items: seq<Item>)
    ensures |items| == |lines|
    ensures forall i :: 0 <= i < |lines| ==> items[i] == Stroke(lines[i])
  {
    if lines == [] then [] else [Stroke(lines[0])] + Strokes(lines[1..])
  }

  /** Adding one more line to a stroke adds one more item at the end. */
  lemma {:induction false} StrokesAppend(lines: seq<LineItem>, next: LineItem)
    ensures Strokes(lines + [next]) == Strokes(lines) + [Stroke(next)]
  {
    if lines != [] {
      assert (lines + [next])[1..] == lines[1..] + [next];
      StrokesAppend(lines[1..], next);
    }
  }

  /** Consecutive lines meet: each one starts where the previous one ended. */
  predicate Chained(lines: seq<LineItem>) {
    forall i :: 0 <= i < |lines| - 1 ==> lines[i].line.p2 == lines[i + 1].line.p1
  }

  /** Appending a line that starts at the end of the last one keeps a stroke chained. */
  lemma ChainedExtend(lines: seq<LineItem>, next: LineItem)
    requires Chained(lines)
    requires lines != [] ==> lines[|lines| - 1].line.p2 == next.line.p1
    ensures Chained(lines + [next])
  {
    var all := lines + [next];
    forall i | 0 <= i < |all| - 1
      ensures all[i].line.p2 == all[i + 1].line.p1
    {
      if i < |lines| - 1 {
        assert all[i] == lines[i] && all[i + 1] == lines[i + 1];
      }
    }
  }

  /** The state that places a figure on press and sizes it while the pointer moves. */
  class AddFigureState {
    var drawing: bool
    var startPoint: Option<Point>
    var lastPoint: Option<Point>
    var figure: Figure?

    ghost predicate Valid()
      reads this, figure
    {
      && (drawing ==> figure != null)
      && (figure != null ==> startPoint.Some? && figure.startPoint == startPoint && figure.Valid())
    }

    constructor ()
      ensures Valid() && !drawing && startPoint == None && lastPoint == None && figure == null
    {
      drawing := false;
      startPoint := None;
      lastPoint := None;
      figure := null;
    }

    /**
     * A left press makes a figure of the painter's current kind, anchors it at the
     * press point, gives it the current pen and adds it to the scene at once,
     * before it has a size.
     */
    method MousePress(painter: Painter, pos: Point, button: Button)
      requires Valid() && painter.currFigure.Some?
      modifies this, painter`scene
      ensures Valid()
      ensures button != LeftButton ==> unchanged(this) && painter.scene == old(painter.scene)
      ensures button == LeftButton ==>
        && drawing && startPoint == Some(pos) && lastPoint == Some(pos)
        && figure != null && fresh(figure)
        && figure.kind == painter.currFigure.value && figure.startPoint == Some(pos)
        && figure.pen == painter.pen && figure.geometry == EmptyGeometry(figure.kind)
        && painter.scene == old(painter.scene) + [Shape(figure)]
    {
      if button == LeftButton {
        drawing := true;
        startPoint := Some(pos);
        lastPoint := Some(pos);
        var f := new Figure(painter.currFigure.value);
        f.SetStartPoint(pos);
        f.SetPen(painter.pen);
        figure := f;
        painter.AddFigure(f);
      }
    }

    /** While the left button is held after a press, the pointer resizes the placed figure. */
    method MouseMove(pos: Point, buttons: set<Button>)
      requires Valid()
      modifies this`lastPoint, figure
      ensures Valid()
      ensures LeftButton in buttons && drawing ==>
        && lastPoint == Some(pos)
        && figure.geometry == ResizedGeometry(figure.kind, startPoint.value, pos)
      ensures !(LeftButton in buttons && drawing) ==> lastPoint == old(lastPoint)
      ensures !(LeftButton in buttons && drawing) && figure != null ==> unchanged(figure)
      ensures figure != null ==> figure.pen == old(figure.pen) && figure.startPoint == old(figure.startPoint)
    {
      if LeftButton in buttons && drawing {
        lastPoint := Some(pos);
        figure.Resize(pos);
      }
    }

    /** A left release stops sizing; the figure keeps its last geometry. */
    method MouseRelease(button: Button)
      modifies this`drawing
      ensures drawing == (old(drawing) && button != LeftButton)
    {
      if button == LeftButton {
        drawing := false;
      }
    }
  }

  /** The state that draws freehand: every move appends a one-step line from the previous point. */
  class DrawingState {
    var drawing: bool
    var startPoint: Option<Point>
    var listLine: seq<LineItem>

    ghost predicate Valid()
      reads this
    {
      && (drawing ==> startPoint.Some?)
      && Chained(listLine)
      && (listLine != [] ==> startPoint == Some(listLine[|listLine| - 1].line.p2))
    }

    constructor ()
      ensures Valid() && !drawing && startPoint == None && listLine == []
    {
      drawing := false;
      startPoint := None;
      listLine := [];
    }

    /** A left press starts a new, empty stroke at the press point. */
    method MousePress(pos: Point, button: Button)
      requires Valid()
      modifies this
      ensures Valid()
      ensures button != LeftButton ==> unchanged(this)
      ensures button == LeftButton ==> drawing && startPoint == Some(pos) && listLine == []
    {
      if button == LeftButton {
        drawing := true;
        startPoint := Some(pos);
        listLine := [];
      }
    }

    /**
     * While drawing, a move adds one line from the previous point to the pointer,
     * with the painter's current pen, to the stroke and to the scene, then makes
     * the pointer the previous point.
     */
    method MouseMove(painter: Painter, pos: Point, buttons: set<Button>)
      requires Valid()
      modifies this, painter`scene
      ensures Valid() && drawing == old(drawing)
      ensures LeftButton in buttons && drawing ==>
        var line := LineItem(Segment(old(startPoint).value, pos), painter.pen);
        && listLine == old(listLine) + [line]
        && painter.scene == old(painter.scene) + [Stroke(line)]
        && startPoint == Some(pos)
      ensures !(LeftButton in buttons && drawing) ==> unchanged(this) && painter.scene == old(painter.scene)
    {
      if LeftButton in buttons && drawing {
        var line := LineItem(Segment(startPoint.value, pos), painter.pen);
        ChainedExtend(listLine, line);
        listLine := listLine + [line];
        painter.AddItem(Stroke(line));
        startPoint := Some(pos);
      }
    }

    /**
     * A left release ends the stroke.  The add-curve command is built from the
     * stroke here but never executed: its lines are already in the scene.
     */
    method MouseRelease(button: Button)
      modifies this`drawing
      ensures drawing == (old(drawing) && button != LeftButton)
    {
      if button == LeftButton {
        drawing := false;
        var command := AddCurveCommand(listLine);
      }
    }
  }

  /** The drawing surface together with the editor's current pen, figure kind and state. */
  class Painter {
    const stateAddFigure: AddFigureState
    const stateDrawing: DrawingState
    var currState: Mode
    var currFigure: Option<Kind>
    var pen: Pen
    var scene: seq<Item>

    ghost predicate Valid()
      reads this, stateAddFigure, stateDrawing, stateAddFigure.figure
    {
      && (currState == AddingFigure ==> currFigure.Some?)
      && stateAddFigure.Valid()
      && stateDrawing.Valid()
      && (stateAddFigure.figure != null ==> Shape(stateAddFigure.figure) in scene)
      && (forall l :: l in stateDrawing.listLine ==> Stroke(l) in scene)
    }

    /** The editor starts in freehand drawing, with lines as the figure kind and a red pen two units wide. */
    constructor ()
      ensures Valid() && fresh(stateAddFigure) && fresh(stateDrawing)
      ensures currState == FreehandDrawing && currFigure == Some(LineKind)
      ensures pen == Pen(Red, 2) && scene == []
      ensures !stateAddFigure.drawing && !stateDrawing.drawing
    {
      stateAddFigure := new AddFigureState();
      stateDrawing := new DrawingState();
      var p := Pen(Red, DefaultPen.width);
      pen := p.(width := 2);
      currFigure := Some(LineKind);
      currState := FreehandDrawing;
      scene := [];
    }

    /** Puts one item on the drawing surface. */
    method AddItem(item: Item)
      modifies this`scene
      ensures scene == old(scene) + [item]
    {
      scene := scene + [item];
    }

    /** Sets the pen's colour; nothing else changes. */
    method ChangeColorPen(color: Color)
      modifies this`pen
      ensures pen == old(pen).(color := color)
    {
      pen := pen.(color := color);
    }

    /** Sets the pen's width; nothing else changes. */
    method ChangeWidthPen(width: int)
      modifies this`pen
      ensures pen == old(pen).(width := width)
    {
      pen := pen.(width := width);
    }

    /**
     * Selects the add-figure state for a figure kind and freehand drawing for none,
     * and records the kind as the one the next press creates.
     */
    method ChangeState(figure: Option<Kind>)
      requires Valid()
      modifies this`currState, this`currFigure
      ensures Valid()
      ensures currState == (if figure.Some? then AddingFigure else FreehandDrawing)
      ensures currFigure == figure
    {
      if figure.Some? {
        currState := AddingFigure;
      } else {
        currState := FreehandDrawing;
      }
      currFigure := figure;
    }

    /** Puts a figure on the drawing surface. */
    method AddFigure(figure: Figure)
      modifies this`scene
      ensures scene == old(scene) + [Shape(figure)]
    {
      AddItem(Shape(figure));
    }

    /** Puts every line of a stroke on the drawing surface, in order. */
    method AddCurve(command: AddCurveCommand)
      modifies this`scene
      ensures scene == old(scene) + Strokes(command.lines)
    {
      var lines := command.lines;
      for i := 0 to |lines|
        invariant scene == old(scene) + Strokes(lines[..i])
      {
        assert lines[..i + 1] == lines[..i] + [lines[i]];
        StrokesAppend(lines[..i], lines[i]);
        AddItem(Stroke(lines[i]));
      }
      assert lines[..|lines|] == lines;
    }

    /** Forwards a press to the current state. */
    method MousePress(pos: Point, button: Button)
      requires Valid()
      modifies this`scene, stateAddFigure, stateDrawing
      ensures Valid()
      ensures button != LeftButton ==>
        scene == old(scene) && unchanged(stateAddFigure) && unchanged(stateDrawing)
      ensures currState == AddingFigure ==> unchanged(stateDrawing)
      ensures currState == FreehandDrawing ==> unchanged(stateAddFigure) && scene == old(scene)
      ensures currState == AddingFigure && button == LeftButton ==>
        var f := stateAddFigure.figure;
        && f != null && fresh(f) && stateAddFigure.drawing
        && stateAddFigure.startPoint == Some(pos) && stateAddFigure.lastPoint == Some(pos)
        && f.kind == currFigure.value && f.startPoint == Some(pos) && f.pen == pen
        && f.geometry == EmptyGeometry(f.kind)
        && scene == old(scene) + [Shape(f)]
      ensures currState == FreehandDrawing && button == LeftButton ==>
        stateDrawing.drawing && stateDrawing.startPoint == Some(pos) && stateDrawing.listLine == []
    {
      if currState == AddingFigure {
        stateAddFigure.MousePress(this, pos, button);
      } else {
        stateDrawing.MousePress(pos, button);
      }
    }

    /** Forwards a pointer move to the current state. */
    method MouseMove(pos: Point, buttons: set<Button>)
      requires Valid()
      modifies this`scene, stateAddFigure, stateDrawing, stateAddFigure.figure
      ensures Valid()
      ensures currState == AddingFigure ==>
        && scene == old(scene) && unchanged(stateDrawing)
        && stateAddFigure.figure == old(stateAddFigure.figure)
        && stateAddFigure.drawing == old(stateAddFigure.drawing)
        && stateAddFigure.startPoint == old(stateAddFigure.startPoint)
        && (stateAddFigure.figure != null ==>
              && stateAddFigure.figure.pen == old(stateAddFigure.figure.pen)
              && stateAddFigure.figure.startPoint == old(stateAddFigure.figure.startPoint))
        && (LeftButton in buttons && stateAddFigure.drawing ==>
              var f := stateAddFigure.figure;
              && stateAddFigure.lastPoint == Some(pos)
              && f.geometry == ResizedGeometry(f.kind, stateAddFigure.startPoint.value, pos))
        && (!(LeftButton in buttons && stateAddFigure.drawing) ==>
              && unchanged(stateAddFigure)
              && (stateAddFigure.figure != null ==> unchanged(stateAddFigure.figure)))
      ensures currState == FreehandDrawing ==>
        && unchanged(stateAddFigure)
        && (stateAddFigure.figure != null ==> unchanged(stateAddFigure.figure))
        && stateDrawing.drawing == old(stateDrawing.drawing)
        && (LeftButton in buttons && stateDrawing.drawing ==>
              var line := LineItem(Segment(old(stateDrawing.startPoint).value, pos), pen);
              && stateDrawing.listLine == old(stateDrawing.listLine) + [line]
              && scene == old(scene) + [Stroke(line)]
              && stateDrawing.startPoint == Some(pos))
        && (!(LeftButton in buttons && stateDrawing.drawing) ==>
              scene == old(scene) && unchanged(stateDrawing))
    {
      if currState == AddingFigure {
        stateAddFigure.MouseMove(pos, buttons);
      } else {
        stateDrawing.MouseMove(this, pos, buttons);
      }
    }

    /** Forwards a release to the current state; a release never changes the scene. */
    method MouseRelease(button: Button)
      requires Valid()
      modifies stateAddFigure`drawing, stateDrawing`drawing
      ensures Valid()
      ensures currState == AddingFigure ==>
        stateAddFigure.drawing == (old(stateAddFigure.drawing) && button != LeftButton)
        && stateDrawing.drawing == old(stateDrawing.drawing)
      ensures currState == FreehandDrawing ==>
        stateDrawing.drawing == (old(stateDrawing.drawing) && button != LeftButton)
        && stateAddFigure.drawing == old(stateAddFigure.drawing)
    {
      if currState == AddingFigure {
        stateAddFigure.MouseRelease(button);
      } else {
        stateDrawing.MouseRelease(button);
      }
    }
  }

  /**
   * A left press at `a` followed by a move to `b` with the left button held places
   * one new figure in the scene, sized from `a` to `b`, and a move without the button
   * leaves it as it is.
   */
  method PressAndDrag(p: Painter, a: Point, b: Point, c: Point)
    requires p.Valid() && p.currState == AddingFigure
    modifies p`scene, p.stateAddFigure, p.stateDrawing, p.stateAddFigure.figure
    ensures p.Valid()
    ensures p.stateAddFigure.figure != null && fresh(p.stateAddFigure.figure)
    ensures p.scene == old(p.scene) + [Shape(p.stateAddFigure.figure)]
    ensures var f := p.stateAddFigure.figure;
      f.kind == old(p.currFigure).value && f.geometry == ResizedGeometry(f.kind, a, b)
  {
    p.MousePress(a, LeftButton);
    p.MouseMove(b, {LeftButton});
    p.MouseMove(c, {});
  }
}
