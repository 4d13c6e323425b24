/**
 * Shape geometry of the paint editor (paint2.0/figures.py).
 *
 * Every figure is sized from the point where the drag began (the anchor) and the
 * current pointer position.  Rectangles, ellipses and triangles go through the
 * same drag-rectangle normalisation; lines use the two points as they are.
 * The toolkit's floating-point coordinates are modelled as integers.
 */
module Figures {
  import opened Wrappers

  /** A scene position. */
  datatype Point = Point(x: int, y: int)

  /** An axis-aligned rectangle as the toolkit stores it: top-left corner and size. */
  datatype Rect = Rect(x: int, y: int, width: int, height: int)

  /** A directed line from p1 to p2. */
  datatype Segment = Segment(p1: Point, p2: Point)

  /** A colour as red, green and blue components. */
  datatype Color = Rgb(red: int, green: int, blue: int)

  const Red: Color := Rgb(255, 0, 0)
  const Black: Color := Rgb(0, 0, 0)

  /** The stroke style an item is drawn with. Items keep their own copy. */
  datatype Pen = Pen(color: Color, width: int)

  /** The pen a freshly made item has before one is set: black, one unit wide. */
  const DefaultPen: Pen := Pen(Black, 1)

  /** The four figure classes the editor can place. */
  datatype Kind = RectangleKind | TriangleKind | EllipseKind | LineKind

  /** What a figure's toolkit item holds: a rectangle, a polygon or a line. */
  datatype Geometry =
    | RectGeometry(rect: Rect)
    | PolygonGeometry(vertices: seq<Point>)
    | LineGeometry(line: Segment)

  function Min(a: int, b: int): int { if a <= b then a else b }

  function Max(a: int, b: int): int { if a <= b then b else a }

  function TopLeft(r: Rect): Point { Point(r.x, r.y) }

  function TopRight(r: Rect): Point { Point(r.x + r.width, r.y) }

  function BottomLeft(r: Rect): Point { Point(r.x, r.y + r.height) }

  function BottomRight(r: Rect): Point { Point(r.x + r.width, r.y + r.height) }

  /** The rectangle the toolkit builds from a top-left and a bottom-right point; it does not reorder them. */
  function RectFromCorners(topLeft: Point, bottomRight: Point): Rect {
    Rect(topLeft.x, topLeft.y, bottomRight.x - topLeft.x, bottomRight.y - topLeft.y)
  }

  /** Reference definition: the smallest axis-aligned rectangle that has both points on it. */
  function BoundingRect(a: Point, b: Point): Rect {
    Rect(Min(a.x, b.x), Min(a.y, b.y), Max(a.x, b.x) - Min(a.x, b.x), Max(a.y, b.y) - Min(a.y, b.y))
  }

  /** True when p and q are diagonally opposite corners of r. */
  predicate OppositeCorners(r: Rect, p: Point, q: Point) {
    || (p == TopLeft(r) && q == BottomRight(r))
    || (p == BottomRight(r) && q == TopLeft(r))
    || (p == TopRight(r) && q == BottomLeft(r))
    || (p == BottomLeft(r) && q == TopRight(r))
  }

  /**
   * The drag rectangle from the anchor `start` to the pointer `end`, found by a
   * case split on the signs of the horizontal and vertical drag.
   */
  function GetRect(start: Point, end: Point): (r: Rect)
    ensures r == BoundingRect(start, end)
    ensures r.width >= 0 && r.height >= 0
  {
    var width := end.x - start.x;
    var height := end.y - start.y;
    if width >= 0 && height <= 0 then
      RectFromCorners(Point(start.x, end.y), Point(end.x, start.y))
    else if width >= 0 && height >= 0 then
      RectFromCorners(start, end)
    else if width <= 0 && height >= 0 then
      RectFromCorners(Point(end.x, start.y), Point(start.x, end.y))
    else
      RectFromCorners(end, start)
  }

  /** The drag rectangle spans the two points: its corners are their component-wise minimum and maximum. */
  lemma GetRectCorners(start: Point, end: Point)
    ensures TopLeft(GetRect(start, end)) == Point(Min(start.x, end.x), Min(start.y, end.y))
    ensures BottomRight(GetRect(start, end)) == Point(Max(start.x, end.x), Max(start.y, end.y))
    ensures OppositeCorners(GetRect(start, end), start, end)
  {
  }

  /** The drag direction does not matter: swapping anchor and pointer gives the same rectangle. */
  lemma GetRectSymmetric(start: Point, end: Point)
    ensures GetRect(start, end) == GetRect(end, start)
  {
  }

  /**
   * The isosceles triangle inscribed in r: the base is the bottom edge and the apex
   * sits on the top edge at the floored horizontal midpoint.  Dafny's `/` by a
   * positive divisor rounds down, as the source's `//` does.
   */
  function TriangleVertices(r: Rect): (v: seq<Point>)
    ensures |v| == 3
    ensures v[0] == BottomLeft(r) && v[1] == BottomRight(r)
    ensures v[2].y == TopLeft(r).y
    ensures 2 * v[2].x <= 2 * r.x + r.width < 2 * v[2].x + 2
    ensures r.width >= 0 ==> TopLeft(r).x <= v[2].x <= TopRight(r).x
  {
    [BottomLeft(r), BottomRight(r), Point((2 * r.x + r.width) / 2, r.y)]
  }

  /** True when the geometry is of the shape the kind's toolkit item holds. */
  predicate Fits(kind: Kind, g: Geometry) {
    match kind
    case RectangleKind => g.RectGeometry?
    case EllipseKind => g.RectGeometry?
    case TriangleKind => g.PolygonGeometry? && |g.vertices| == 3
    case LineKind => g.LineGeometry?
  }

  /** The geometry a new item starts with: a null rectangle, an empty polygon or a null line. */
  function EmptyGeometry(kind: Kind): Geometry {
    match kind
    case RectangleKind => RectGeometry(Rect(0, 0, 0, 0))
    case EllipseKind => RectGeometry(Rect(0, 0, 0, 0))
    case TriangleKind => PolygonGeometry([])
    case LineKind => LineGeometry(Segment(Point(0, 0), Point(0, 0)))
  }

  /**
   * The geometry each figure class's resize gives an item anchored at `start`
   * when the pointer is at `end`.
   */
  function ResizedGeometry(kind: Kind, start: Point, end: Point): (g: Geometry)
    ensures Fits(kind, g)
    ensures (kind == RectangleKind || kind == EllipseKind) ==> g == RectGeometry(BoundingRect(start, end))
    ensures kind == TriangleKind ==> g == PolygonGeometry(TriangleVertices(BoundingRect(start, end)))
    ensures kind == LineKind ==> g.line.p1 == start && g.line.p2 == end
  {
    match kind
    case RectangleKind => RectGeometry(GetRect(start, end))
    case EllipseKind => RectGeometry(GetRect(start, end))
    case TriangleKind => PolygonGeometry(TriangleVertices(GetRect(start, end)))
    case LineKind => LineGeometry(Segment(start, end))
  }

  /** A line figure is not normalised: dragging up and to the left keeps the anchor as its first point. */
  lemma LineKeepsDragDirection(start: Point, end: Point)
    requires end.x < start.x && end.y < start.y
    ensures ResizedGeometry(LineKind, start, end).line.p1 != TopLeft(GetRect(start, end))
  {
  }

  /**
   * A placed figure: one of the four toolkit items together with the anchor the
   * editor gives it.  `startPoint` is None until the anchor is set.
   */
  class Figure {
    const kind: Kind
    var startPoint: Option<Point>
    var geometry: Geometry
    var pen: Pen

    ghost predicate Valid()
      reads this
    {
      Fits(kind, geometry) || geometry == EmptyGeometry(kind)
    }

    constructor (kind: Kind)
      ensures this.kind == kind && startPoint == None
      ensures geometry == EmptyGeometry(kind) && pen == DefaultPen
      ensures Valid()
    {
      this.kind := kind;
      startPoint := None;
      geometry := EmptyGeometry(kind);
      pen := DefaultPen;
    }

    /** Records the anchor that later resizes start from. */
    method SetStartPoint(p: Point)
      modifies this`startPoint
      ensures startPoint == Some(p)
    {
      startPoint := Some(p);
    }

    /** The toolkit item's own pen setter; the item keeps a copy of the pen. */
    method SetPen(p: Pen)
      modifies this`pen
      ensures pen == p
    {
      pen := p;
    }

    /** Sizes the item from its anchor to `end`; does nothing while no anchor is set. */
    method Resize(end: Point)
      requires Valid()
      modifies this`geometry
      ensures Valid()
      ensures startPoint.None? ==> geometry == old(geometry)
      ensures startPoint.Some? ==> geometry == ResizedGeometry(kind, startPoint.value, end)
    {
      if startPoint.None? {
        return;
      }
      var start := startPoint.value;
      match kind
      case RectangleKind =>
        geometry := RectGeometry(GetRect(start, end));
      case TriangleKind =>
        geometry := PolygonGeometry(TriangleVertices(GetRect(start, end)));
      case EllipseKind =>
        geometry := RectGeometry(GetRect(start, end));
      case LineKind =>
        geometry := LineGeometry(Segment(start, end));
    }
  }
}
