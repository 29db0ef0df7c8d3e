/**
 * Points and axis-aligned rectangles (`Point`, `Rect` and `Rect.bounding`
 * in geom.py), with the failures the source raises made explicit.
 */
module Geom {

  /** The failures construction can raise: the `assert`s of `Rect.__init__`,
      `min`/`max` over an empty list (ValueError), and running out of
      recursion depth (RecursionError). */
  datatype Error = InvalidRect | EmptyInput | RecursionLimit

  datatype Result<+T> = Ok(value: T) | Err(error: Error) {
    predicate IsFailure() { Err? }
    function PropagateFailure<U>(): Result<U> requires Err? { Err(error) }
    function Extract(): T requires Ok? { value }
  }

  datatype Option<+T> = None | Some(value: T)

  /** A point in the plane; two points are equal when their coordinates are. */
  datatype Point = Point(x: real, y: real)

  datatype Rect = Rect(top: real, bottom: real, left: real, right: real) {
    /** The invariant `Rect.__init__` asserts. */
    predicate Valid() { left <= right && bottom <= top }

    /** Closed containment: points on an edge are inside. */
    predicate Contains(p: Point) { left <= p.x <= right && bottom <= p.y <= top }

    function Width(): real { right - left }
    function Height(): real { top - bottom }
  }

  /** `Rect(top, bottom, left, right)`: fails unless the bounds are ordered. */
  function MakeRect(top: real, bottom: real, left: real, right: real): (r: Result<Rect>)
    ensures r.Ok? <==> left <= right && bottom <= top
    ensures r.Ok? ==> r.value.Valid()
    ensures r.Ok? ==> r.value.top == top && r.value.bottom == bottom
    ensures r.Ok? ==> r.value.left == left && r.value.right == right
    ensures r.Err? ==> r.error == InvalidRect
  {
    if !(left <= right) then Err(InvalidRect)
    else if !(bottom <= top) then Err(InvalidRect)
    else Ok(Rect(top, bottom, left, right))
  }

  datatype Axis = X | Y

  function Coord(p: Point, a: Axis): real {
    match a
    case X => p.x
    case Y => p.y
  }

  /** `min(points, key=...)` read off on one axis: the least coordinate. */
  function Least(points: seq<Point>, a: Axis): (m: real)
    requires |points| > 0
    ensures exists i :: 0 <= i < |points| && Coord(points[i], a) == m
    ensures forall i :: 0 <= i < |points| ==> m <= Coord(points[i], a)
  {
    if |points| == 1 then Coord(points[0], a)
    else
      var rest := Least(points[1..], a);
      assert forall i :: 1 <= i < |points| ==> points[i] == points[1..][i - 1];
      if Coord(points[0], a) <= rest then Coord(points[0], a) else rest
  }

  /** `max(points, key=...)` read off on one axis: the greatest coordinate. */
  function Greatest(points: seq<Point>, a: Axis): (m: real)
    requires |points| > 0
    ensures exists i :: 0 <= i < |points| && Coord(points[i], a) == m
    ensures forall i :: 0 <= i < |points| ==> Coord(points[i], a) <= m
  {
    if |points| == 1 then Coord(points[0], a)
    else
      var rest := Greatest(points[1..], a);
      assert forall i :: 1 <= i < |points| ==> points[i] == points[1..][i - 1];
      if rest <= Coord(points[0], a) then Coord(points[0], a) else rest
  }

  /** `Rect.bounding`: the tightest rectangle around a non-empty point list;
      an empty list fails because `min` of nothing is undefined. */
  function Bounding(points: seq<Point>): (r: Result<Rect>)
    ensures r.Err? <==> |points| == 0
    ensures r.Err? ==> r.error == EmptyInput
    ensures r.Ok? ==> r.value.Valid()
    ensures r.Ok? ==> forall i :: 0 <= i < |points| ==> r.value.Contains(points[i])
    ensures r.Ok? ==> exists i :: 0 <= i < |points| && points[i].y == r.value.top
    ensures r.Ok? ==> exists i :: 0 <= i < |points| && points[i].y == r.value.bottom
    ensures r.Ok? ==> exists i :: 0 <= i < |points| && points[i].x == r.value.left
    ensures r.Ok? ==> exists i :: 0 <= i < |points| && points[i].x == r.value.right
  {
    if |points| == 0 then Err(EmptyInput)
    else
      var minX := Least(points, X);
      var minY := Least(points, Y);
      var maxX := Greatest(points, X);
      var maxY := Greatest(points, Y);
      assert minX <= Coord(points[0], X) <= maxX;
      assert minY <= Coord(points[0], Y) <= maxY;
      MakeRect(maxY, minY, minX, maxX)
  }

  /** The bounding box is the smallest: every rectangle holding all the points
      holds it. */
  lemma BoundingIsSmallest(points: seq<Point>, r: Rect)
    requires |points| > 0
    requires forall i :: 0 <= i < |points| ==> r.Contains(points[i])
    ensures Bounding(points).Ok?
    ensures r.top >= Bounding(points).value.top && r.bottom <= Bounding(points).value.bottom
    ensures r.left <= Bounding(points).value.left && r.right >= Bounding(points).value.right
  {
    var b := Bounding(points).value;
    var i0 :| 0 <= i0 < |points| && points[i0].y == b.top;
    var i1 :| 0 <= i1 < |points| && points[i1].y == b.bottom;
    var i2 :| 0 <= i2 < |points| && points[i2].x == b.left;
    var i3 :| 0 <= i3 < |points| && points[i3].x == b.right;
    assert r.Contains(points[i0]) && r.Contains(points[i1]);
    assert r.Contains(points[i2]) && r.Contains(points[i3]);
  }

  /** The doctest of `Rect`: `Rect(3, 1, 5, 7)` keeps its four bounds. */
  lemma RectDoctest()
    ensures MakeRect(3.0, 1.0, 5.0, 7.0) == Ok(Rect(3.0, 1.0, 5.0, 7.0))
  {
  }

  /** The doctest of `Rect.bounding` on `[Point(1,2), Point(3,4)]`. */
  lemma BoundingDoctest()
    ensures Bounding([Point(1.0, 2.0), Point(3.0, 4.0)]) == Ok(Rect(4.0, 2.0, 1.0, 3.0))
  {
    var ps := [Point(1.0, 2.0), Point(3.0, 4.0)];
    assert ps[1..] == [Point(3.0, 4.0)];
  }
}
