/**
  The plain drag handlers of the overlay's static image label (`ImageLabel`)
  and of its video widget (`DraggableVideo`). Both record the press position
  as an offset and, on every move, place the widget so that the pointer stays
  at that offset.
*/
module DragLabels {
  import opened Wrappers
  import opened Pointer

  // ---------------------------------------------------------------------------
  // ImageLabel

  /** An `ImageLabel`'s drag state: its position and `self.offset` (None until a left press). */
  datatype ImageLabel = ImageLabel(pos: Point, offset: Option<Point>)

  function NewImageLabel(pos: Point): (s: ImageLabel)
    ensures s.pos == pos && s.offset == None
  {
    ImageLabel(pos, None)
  }

  /** `ImageLabel.mousePressEvent`: only the left button records an offset. */
  function ImagePress(s: ImageLabel, button: Button, at: Point): (r: ImageLabel)
    ensures r.pos == s.pos
    ensures button == LeftButton ==> r.offset == Some(at)
    ensures button != LeftButton ==> r == s
  {
    if button == LeftButton then s.(offset := Some(at)) else s
  }

  /**
    PyQt5's truth value of the recorded offset: `None` is false, and so is a
    null `QPoint`, the one at (0, 0).
  */
  predicate OffsetIsTruthy(offset: Option<Point>) {
    offset.Some? && offset.value != Point(0, 0)
  }

  /**
    `ImageLabel.mouseMoveEvent` as written: it drags only when `self.offset`
    is truthy and the left button is held, so a press at the label's own
    top-left pixel leaves it stuck.
  */
  function ImageMoveAsWritten(s: ImageLabel, at: Point, leftHeld: bool): (r: ImageLabel)
    ensures r.offset == s.offset
    ensures OffsetIsTruthy(s.offset) && leftHeld ==>
              MapFromParent(r.pos, MapToParent(s.pos, at)) == s.offset.value
    ensures !(OffsetIsTruthy(s.offset) && leftHeld) ==> r == s
  {
    if OffsetIsTruthy(s.offset) && leftHeld then
      s.(pos := DragTarget(s.pos, at, s.offset.value))
    else s
  }

  /**
    The same handler with the guard the code evidently means, "a press has
    recorded an offset": every recorded offset, (0, 0) included, drags.
  */
  function ImageMove(s: ImageLabel, at: Point, leftHeld: bool): (r: ImageLabel)
    ensures r.offset == s.offset
    ensures s.offset.Some? && leftHeld ==>
              MapFromParent(r.pos, MapToParent(s.pos, at)) == s.offset.value
    ensures !(s.offset.Some? && leftHeld) ==> r == s
  {
    if s.offset.Some? && leftHeld then
      s.(pos := DragTarget(s.pos, at, s.offset.value))
    else s
  }

  /** The two handlers differ only for an offset recorded at (0, 0). */
  lemma ImageMoveAgreesAwayFromOrigin(s: ImageLabel, at: Point, leftHeld: bool)
    requires s.offset != Some(Point(0, 0))
    ensures ImageMoveAsWritten(s, at, leftHeld) == ImageMove(s, at, leftHeld)
  {
  }

  /**
    The discrepancy: a left press at local (0, 0) followed by a move to
    (5, 5) with the left button held leaves the label where it was, although
    the pointer has left the recorded offset; the corrected handler follows.
  */
  lemma ImageMoveStuckAfterOriginPress(pos: Point)
    ensures var pressed := ImagePress(NewImageLabel(pos), LeftButton, Point(0, 0));
            && ImageMoveAsWritten(pressed, Point(5, 5), true).pos == pos
            && MapFromParent(pos, MapToParent(pos, Point(5, 5))) != Point(0, 0)
            && ImageMove(pressed, Point(5, 5), true).pos == pos.Plus(Point(5, 5))
  {
  }

  /** A run of moves through the handler as written, the left button held or not. */
  function ImageMovesAsWritten(s: ImageLabel, moves: seq<Point>, leftHeld: bool): ImageLabel
    decreases |moves|
  {
    if |moves| == 0 then s
    else ImageMovesAsWritten(ImageMoveAsWritten(s, moves[0], leftHeld), moves[1..], leftHeld)
  }

  /**
    As written, a label whose offset is false in PyQt5 (never pressed, or
    pressed at its own (0, 0)) stays where it is for every run of moves, even
    with the left button held throughout.
  */
  lemma {:induction false} ImageStuckWithoutTruthyOffset(s: ImageLabel, moves: seq<Point>, held: bool)
    requires !OffsetIsTruthy(s.offset)
    ensures ImageMovesAsWritten(s, moves, held) == s
    decreases |moves|
  {
    if |moves| > 0 {
      ImageStuckWithoutTruthyOffset(ImageMoveAsWritten(s, moves[0], held), moves[1..], held);
    }
  }

  /** A run of moves through the corrected handler. */
  function ImageMoves(s: ImageLabel, moves: seq<Point>, leftHeld: bool): ImageLabel
    decreases |moves|
  {
    if |moves| == 0 then s else ImageMoves(ImageMove(s, moves[0], leftHeld), moves[1..], leftHeld)
  }

  /** The sum of the pointer's displacements from `offset` over a run of moves. */
  function Displacement(moves: seq<Point>, offset: Point): Point
    decreases |moves|
  {
    if |moves| == 0 then Point(0, 0) else moves[0].Minus(offset).Plus(Displacement(moves[1..], offset))
  }

  /**
    With the corrected guard, a pressed label dragged with the left button
    held keeps its offset and ends displaced by exactly the sum of the
    pointer's displacements from the offset: each move is seen from the
    position the previous one left.
  */
  lemma {:induction false} ImageMovesAccumulate(s: ImageLabel, moves: seq<Point>)
    requires s.offset.Some?
    ensures ImageMoves(s, moves, true) == s.(pos := s.pos.Plus(Displacement(moves, s.offset.value)))
    decreases |moves|
  {
    if |moves| > 0 {
      var next := ImageMove(s, moves[0], true);
      ImageMovesAccumulate(next, moves[1..]);
    }
  }

  // ---------------------------------------------------------------------------
  // DraggableVideo

  /** The fixed size a `DraggableVideo` is created with. */
  const VideoWidth: nat := 320
  const VideoHeight: nat := 240

  /** A `DraggableVideo`'s drag state: its geometry and `self.offset`. */
  datatype Video = Video(pos: Point, width: nat, height: nat, offset: Point)

  /** A new video is 320x240 at (x, y) and starts with the null offset `QPoint()`. */
  function NewVideo(x: int, y: int): (v: Video)
    ensures v.pos == Point(x, y) && v.offset == Point(0, 0)
    ensures v.width == 320 && v.height == 240
  {
    Video(Point(x, y), VideoWidth, VideoHeight, Point(0, 0))
  }

  /** `DraggableVideo.mousePressEvent`: any button records the offset. */
  function VideoPress(v: Video, at: Point): (r: Video)
    ensures r.pos == v.pos && r.offset == at
    ensures r.width == v.width && r.height == v.height
  {
    v.(offset := at)
  }

  /** `DraggableVideo.mouseMoveEvent`: unconditionally follows the pointer and keeps its size. */
  function VideoMove(v: Video, at: Point): (r: Video)
    ensures r.offset == v.offset
    ensures r.width == v.width && r.height == v.height
    ensures MapFromParent(r.pos, MapToParent(v.pos, at)) == v.offset
    ensures r.pos == v.pos <==> at == v.offset
  {
    v.(pos := DragTarget(v.pos, at, v.offset))
  }

  /** Pressing and moving to the same local point leaves a video in place. */
  lemma VideoPressThenMoveInPlace(v: Video, at: Point)
    ensures VideoMove(VideoPress(v, at), at) == VideoPress(v, at)
  {
  }
}
