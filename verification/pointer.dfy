/**
  Integer pointer coordinates and the parent/local frame conversion every
  draggable widget of the overlay uses.
*/
module Pointer {

  /** A Qt `QPoint`: integer coordinates, either local to a widget or in its parent. */
  datatype Point = Point(x: int, y: int) {

    function Plus(o: Point): Point {
      Point(x + o.x, y + o.y)
    }

    function Minus(o: Point): Point {
      Point(x - o.x, y - o.y)
    }
  }

  /** The button that caused a press event (`event.button()`). */
  datatype Button = LeftButton | RightButton | MiddleButton

  function Abs(n: int): nat {
    if n < 0 then -n else n
  }

  /** Qt's `mapToParent` for a widget whose top-left corner sits at `origin` in its parent. */
  function MapToParent(origin: Point, local: Point): (q: Point)
    ensures q.Minus(origin) == local
  {
    origin.Plus(local)
  }

  /** The inverse conversion: where a parent point lies in the widget's own frame. */
  function MapFromParent(origin: Point, q: Point): (local: Point)
    ensures MapToParent(origin, local) == q
  {
    q.Minus(origin)
  }

  /**
    The drag step shared by all draggable widgets: `move(mapToParent(pos - offset))`.
    The new origin is chosen so that the pointer, seen from the moved widget, sits
    exactly at the offset recorded when the button went down.
  */
  function DragTarget(origin: Point, pointer: Point, offset: Point): (r: Point)
    ensures MapFromParent(r, MapToParent(origin, pointer)) == offset
    ensures r == origin <==> pointer == offset
  {
    MapToParent(origin, pointer.Minus(offset))
  }
}
