/**
  The pointer-driven geometry state machine of the overlay's resizable,
  draggable image label (`ResizableDraggableImageLabel` in gui.py).

  The widget keeps the source's own fields: two booleans for the resize and
  drag gestures, the active resize zone, the size/pointer/bottom edge recorded
  when a resize starts, the offset recorded when a drag starts, and the cursor
  hint. Each event handler is a total function from (label, event) to the next
  label; a handler that would raise `ZeroDivisionError` in Python yields `Err`.
*/
module ResizableLabel {
  import opened Wrappers
  import opened Pointer

  /** `self._resize_margin`: radius of the top-right resize handle. */
  const ResizeMargin: int := 30
  /** `min_size` and `max_size` of the resize clamp, per axis. */
  const MinSize: int := 50
  const MaxSize: int := 2000

  /** The only zone `_resize_zone` ever reports, `"top_right"`. */
  datatype Zone = TopRight

  /** The cursor hint the label shows. */
  datatype Cursor = ArrowCursor | SizeBDiagCursor | OpenHandCursor

  /** The exception a resize move can raise: the aspect ratio divides by a zero side. */
  datatype Fault = ZeroDivision

  /** A pointer event, with its position in the label's local frame. */
  datatype Event = Press(button: Button, at: Point) | Move(at: Point) | Release

  datatype Label = Label(
    pos: Point,              // top-left corner in the parent window
    width: nat,
    height: nat,
    resizing: bool,          // `_resizing`
    dragging: bool,          // `_dragging`
    zoneActive: Option<Zone>, // `_resize_zone_active`
    startWidth: nat,         // `_start_size`
    startHeight: nat,
    startPress: Point,       // `_start_pos`
    startBottomY: int,       // `_start_bottom_y`
    dragOffset: Point,       // `_drag_offset`
    cursor: Cursor)

  /** The bottom edge of the label in parent coordinates. */
  function BottomEdge(w: Label): int {
    w.pos.y + w.height
  }

  /** Both sides lie within the resize clamp. */
  predicate InBounds(w: Label) {
    MinSize <= w.width <= MaxSize && MinSize <= w.height <= MaxSize
  }

  predicate Idle(w: Label) {
    !w.resizing && !w.dragging
  }

  /**
    The invariant every reachable label keeps: never both gestures at once,
    and a zone is active exactly while resizing.
  */
  predicate Consistent(w: Label) {
    !(w.resizing && w.dragging) && (w.resizing <==> w.zoneActive.Some?)
  }

  /** `r` differs from `w` at most in position and size. */
  predicate OnlyGeometryChanged(w: Label, r: Label) {
    r == w.(pos := r.pos, width := r.width, height := r.height)
  }

  /** `r` has the position and size of `w`. */
  predicate SameGeometry(w: Label, r: Label) {
    r.pos == w.pos && r.width == w.width && r.height == w.height
  }

  /** A freshly constructed label: idle, arrow cursor, no gesture recorded yet. */
  function NewLabel(pos: Point, width: nat, height: nat): (w: Label)
    ensures Idle(w) && Consistent(w) && w.zoneActive == None
    ensures w.pos == pos && w.width == width && w.height == height
  {
    Label(pos, width, height, false, false, None, 0, 0, Point(0, 0), 0, Point(0, 0), ArrowCursor)
  }

  /**
    `_resize_zone`: the press point `p` hits the handle when its Euclidean
    distance to the local point (width, 0) is below the margin. With integer
    coordinates, `hypot(dx, dy) < 30` is `dx*dx + dy*dy < 900`. The handle
    is local: a hit lies within 30 of (width, 0) on each axis, and every point
    within 21 of it on both axes (21² + 21² < 30²) is a hit.
  */
  function ResizeZone(w: Label, p: Point): (z: Option<Zone>)
    ensures z.Some? ==> -ResizeMargin < p.x - w.width < ResizeMargin && -ResizeMargin < p.y < ResizeMargin
    ensures Abs(p.x - w.width) <= 21 && Abs(p.y) <= 21 ==> z == Some(TopRight)
  {
    var dx := p.x - w.width;
    var dy := p.y - 0;
    DiscBounds(dx, dy);
    if dx * dx + dy * dy < ResizeMargin * ResizeMargin then Some(TopRight) else None
  }

  /** `mousePressEvent`. */
  function MousePress(w: Label, button: Button, p: Point): (r: Label)
    ensures button != LeftButton ==> r == w
    ensures button == LeftButton ==>
              && (r.resizing <==> ResizeZone(w, p) == Some(TopRight))
              && (r.dragging <==> !r.resizing)
              && Consistent(r)
    ensures SameGeometry(w, r) && r.cursor == w.cursor
    ensures button == LeftButton && r.resizing ==>
              && r.startWidth == w.width && r.startHeight == w.height
              && r.startPress == p && r.startBottomY == BottomEdge(w)
              && r.dragOffset == w.dragOffset
    ensures button == LeftButton && r.dragging ==>
              && r.dragOffset == p
              && r.startWidth == w.startWidth && r.startHeight == w.startHeight
              && r.startPress == w.startPress && r.startBottomY == w.startBottomY
  {
    if button != LeftButton then w
    else
      var zone := ResizeZone(w, p);
      if zone == Some(TopRight) then
        w.(resizing := true, dragging := false, zoneActive := zone,
           startWidth := w.width, startHeight := w.height,
           startPress := p, startBottomY := w.pos.y + w.height)
      else
        w.(dragging := true, dragOffset := p, resizing := false, zoneActive := None)
  }

  /** The width drives a resize move when the pointer moved further sideways than vertically. */
  predicate WidthDriven(w: Label, p: Point) {
    var dx := p.x - w.startPress.x;
    var dy := w.startPress.y - p.y;
    Abs(dx) > Abs(dy)
  }

  /** `aspect_ratio`, recomputed from the recorded start size on every move. */
  function Aspect(w: Label): real
    requires w.startHeight > 0
  {
    w.startWidth as real / w.startHeight as real
  }

  /** The unclamped size a resize move proposes. */
  datatype Proposal = Proposal(width: real, height: real)

  /**
    The aspect-preserving derivation of a resize move. `dy` is inverted so
    that moving up is positive; the driving side grows by its pointer delta
    and the other follows from the start aspect ratio.
  */
  function Propose(w: Label, p: Point): (pr: Proposal)
    requires w.startHeight > 0
    requires w.startWidth > 0 || !WidthDriven(w, p)
    ensures WidthDriven(w, p) ==> pr.width == (w.startWidth + (p.x - w.startPress.x)) as real
    ensures !WidthDriven(w, p) ==> pr.height == (w.startHeight + (w.startPress.y - p.y)) as real
    ensures pr.width * w.startHeight as real == pr.height * w.startWidth as real
  {
    var aspect := Aspect(w);
    var dx := p.x - w.startPress.x;
    var dy := w.startPress.y - p.y;
    if Abs(dx) > Abs(dy) then
      var nw := (w.startWidth + dx) as real;
      assert aspect * w.startHeight as real == w.startWidth as real;
      Proposal(nw, nw / aspect)
    else
      var nh := (w.startHeight + dy) as real;
      assert aspect * w.startHeight as real == w.startWidth as real;
      Proposal(nh * aspect, nh)
  }

  /**
    `int(max(min_size, min(max_size, v)))`: clamp, then truncate. The clamped
    value is positive, so truncation toward zero is the floor.
  */
  function ClampToSize(v: real): (r: int)
    ensures MinSize <= r <= MaxSize
    ensures v <= MinSize as real ==> r == MinSize
    ensures v >= MaxSize as real ==> r == MaxSize
    ensures MinSize as real <= v <= MaxSize as real ==> r as real <= v < r as real + 1.0
  {
    var capped := if v < MaxSize as real then v else MaxSize as real;
    var floored := if MinSize as real < capped then capped else MinSize as real;
    floored.Floor
  }

  /**
    The resize branch of `mouseMoveEvent`: derive, clamp each side on its
    own, then pin the bottom edge recorded at press and keep `x`.
  */
  function ResizeMove(w: Label, p: Point): (r: Result<Label, Fault>)
    ensures r.Err? <==> w.startHeight == 0 || (w.startWidth == 0 && WidthDriven(w, p))
    ensures r.Ok? ==>
              && InBounds(r.value)
              && BottomEdge(r.value) == w.startBottomY
              && r.value.pos.x == w.pos.x
              && OnlyGeometryChanged(w, r.value)
    ensures r.Ok? ==>
              && r.value.width == ClampToSize(Propose(w, p).width)
              && r.value.height == ClampToSize(Propose(w, p).height)
  {
    if w.startHeight == 0 then Err(ZeroDivision)
    else if w.startWidth == 0 && WidthDriven(w, p) then Err(ZeroDivision)
    else
      var pr := Propose(w, p);
      var newWidth := ClampToSize(pr.width);
      var newHeight := ClampToSize(pr.height);
      Ok(w.(pos := Point(w.pos.x, w.startBottomY - newHeight), width := newWidth, height := newHeight))
  }

  /** `mouseMoveEvent`: resize, drag, or only update the cursor hint. */
  function MouseMove(w: Label, p: Point): (r: Result<Label, Fault>)
    ensures w.resizing && w.zoneActive == Some(TopRight) ==>
              && (r.Err? <==> w.startHeight == 0 || (w.startWidth == 0 && WidthDriven(w, p)))
              && (r.Ok? ==> InBounds(r.value) && BottomEdge(r.value) == w.startBottomY
                            && r.value.pos.x == w.pos.x && OnlyGeometryChanged(w, r.value))
              && (r.Ok? ==> r.value.width == ClampToSize(Propose(w, p).width)
                            && r.value.height == ClampToSize(Propose(w, p).height))
    ensures Consistent(w) && w.dragging ==>
              && r.Ok?
              && MapFromParent(r.value.pos, MapToParent(w.pos, p)) == w.dragOffset
              && OnlyGeometryChanged(w, r.value)
              && r.value.width == w.width && r.value.height == w.height
    ensures Idle(w) ==>
              && r.Ok?
              && r.value == w.(cursor := r.value.cursor)
              && (r.value.cursor == SizeBDiagCursor <==> ResizeZone(w, p) == Some(TopRight))
              && (r.value.cursor == OpenHandCursor <==> ResizeZone(w, p) == None)
  {
    if w.resizing && w.zoneActive == Some(TopRight) then
      ResizeMove(w, p)
    else if w.dragging then
      Ok(w.(pos := DragTarget(w.pos, p, w.dragOffset)))
    else
      var zone := ResizeZone(w, p);
      Ok(w.(cursor := if zone == Some(TopRight) then SizeBDiagCursor else OpenHandCursor))
  }

  /** `mouseReleaseEvent`: whatever the state, end the gesture. */
  function MouseRelease(w: Label): (r: Label)
    ensures Idle(r) && Consistent(r) && r.zoneActive == None && r.cursor == ArrowCursor
    ensures SameGeometry(w, r)
    ensures r.startWidth == w.startWidth && r.startHeight == w.startHeight
    ensures r.startPress == w.startPress && r.startBottomY == w.startBottomY
    ensures r.dragOffset == w.dragOffset
  {
    w.(resizing := false, dragging := false, zoneActive := None, cursor := ArrowCursor)
  }

  /** One event delivered by the host event loop. */
  function Step(w: Label, e: Event): (r: Result<Label, Fault>)
    ensures Consistent(w) && r.Ok? ==> Consistent(r.value)
    ensures InBounds(w) && r.Ok? ==> InBounds(r.value)
    ensures r.Err? ==> e.Move? && w.resizing
  {
    match e
    case Press(b, at) => Ok(MousePress(w, b, at))
    case Move(at) => MouseMove(w, at)
    case Release => Ok(MouseRelease(w))
  }

  /** A sequence of events, stopping at the first handler that raises. */
  function Run(w: Label, events: seq<Event>): (r: Result<Label, Fault>)
    ensures Consistent(w) && r.Ok? ==> Consistent(r.value)
    ensures InBounds(w) && r.Ok? ==> InBounds(r.value)
    decreases |events|
  {
    if |events| == 0 then Ok(w)
    else
      match Step(w, events[0])
      case Err(f) => Err(f)
      case Ok(next) => Run(next, events[1..])
  }

  predicate AllMoves(events: seq<Event>) {
    forall i :: 0 <= i < |events| ==> events[i].Move?
  }

  // ---------------------------------------------------------------------------
  // The resize handle

  lemma SquareAtLeast(n: int, k: nat)
    requires Abs(n) >= k
    ensures n * n >= k * k
  {
    var a := Abs(n);
    assert n * n == a * a;
    assert a * a >= k * a >= k * k;
  }

  lemma SquareAtMost(n: int, k: nat)
    requires Abs(n) <= k
    ensures n * n <= k * k
  {
    var a := Abs(n);
    assert n * n == a * a;
    assert a * a <= k * a <= k * k;
  }

  /** The integer facts behind the handle's locality. */
  lemma DiscBounds(dx: int, dy: int)
    ensures dx * dx + dy * dy < ResizeMargin * ResizeMargin ==>
              -ResizeMargin < dx < ResizeMargin && -ResizeMargin < dy < ResizeMargin
    ensures Abs(dx) <= 21 && Abs(dy) <= 21 ==> dx * dx + dy * dy < ResizeMargin * ResizeMargin
  {
    SquareAtLeast(dx, 0);
    SquareAtLeast(dy, 0);
    if Abs(dx) >= ResizeMargin {
      SquareAtLeast(dx, ResizeMargin);
    }
    if Abs(dy) >= ResizeMargin {
      SquareAtLeast(dy, ResizeMargin);
    }
    if Abs(dx) <= 21 && Abs(dy) <= 21 {
      SquareAtMost(dx, 21);
      SquareAtMost(dy, 21);
    }
  }

  /**
    A press arrives at a local point in [0, width) x [0, height). On a label
    at least 30 wide and more than 30 high, no point of its left column or of
    its bottom row (y == height - 1) hits the handle, so neither the other
    three corners nor those edges start a resize. Smaller labels are not
    covered: on a 30x30 label the bottom-right pixel (29, 29) is a hit.
  */
  lemma ZoneMissesOtherEdges(w: Label)
    requires w.width >= ResizeMargin && w.height > ResizeMargin
    ensures forall y :: ResizeZone(w, Point(0, y)) == None
    ensures forall p: Point :: p.y == w.height - 1 ==> ResizeZone(w, p) == None
  {
  }

  /** The test is strict: points at distance exactly 30 are outside, just inside is in. */
  lemma ZoneBoundaryIsStrict(w: Label)
    ensures ResizeZone(w, Point(w.width + 30, 0)) == None
    ensures ResizeZone(w, Point(w.width, -30)) == None
    ensures ResizeZone(w, Point(w.width - 18, 24)) == None
    ensures ResizeZone(w, Point(w.width - 18, 23)) == Some(TopRight)
    ensures ResizeZone(w, Point(w.width + 29, 0)) == Some(TopRight)
  {
  }

  // ---------------------------------------------------------------------------
  // Resize moves

  /** A diagonal move with |dx| == |dy| is height-driven. */
  lemma TieGoesToHeight(w: Label, p: Point)
    requires w.startHeight > 0
    requires Abs(p.x - w.startPress.x) == Abs(w.startPress.y - p.y)
    ensures ResizeMove(w, p).Ok?
    ensures ResizeMove(w, p).value.height == ClampToSize((w.startHeight + (w.startPress.y - p.y)) as real)
  {
  }

  lemma ProductBounds(a: real, s: real)
    requires 0.0 <= a < 1.0 && s > 0.0
    ensures 0.0 <= a * s < s
  {
  }

  /**
    Truncating two reals in the ratio sw : sh down to whole numbers moves the
    cross product width * sh - height * sw strictly between -sh and sw.
  */
  lemma TruncatedRatio(pw: real, ph: real, width: real, height: real, sw: real, sh: real)
    requires sw > 0.0 && sh > 0.0
    requires pw * sh == ph * sw
    requires width <= pw < width + 1.0
    requires height <= ph < height + 1.0
    ensures -sh < width * sh - height * sw < sw
  {
    var fw := pw - width;
    var fh := ph - height;
    ProductBounds(fw, sh);
    ProductBounds(fh, sw);
    assert width * sh == pw * sh - fw * sh by {
      assert width == pw - fw;
    }
    assert height * sw == ph * sw - fh * sw by {
      assert height == ph - fh;
    }
    assert width * sh - height * sw == fh * sw - fw * sh;
  }

  /** The cross products of a size and the start size differ by less than one start side. */
  predicate NearStartAspect(w: Label, width: int, height: int) {
    var sw, sh := w.startWidth as real, w.startHeight as real;
    -sh < width as real * sh - height as real * sw < sw
  }

  lemma TruncationNearStartAspect(w: Label, pw: real, ph: real, width: int, height: int)
    requires w.startHeight > 0 && w.startWidth > 0
    requires pw * w.startHeight as real == ph * w.startWidth as real
    requires width as real <= pw < width as real + 1.0
    requires height as real <= ph < height as real + 1.0
    ensures NearStartAspect(w, width, height)
  {
    TruncatedRatio(pw, ph, width as real, height as real, w.startWidth as real, w.startHeight as real);
  }

  /**
    When neither side is clamped, the new size keeps the start aspect ratio up
    to truncation: width * startHeight and height * startWidth differ by less
    than one start side.
  */
  lemma AspectKeptWithinTruncation(w: Label, p: Point)
    requires w.startHeight > 0 && w.startWidth > 0
    requires MinSize as real <= Propose(w, p).width <= MaxSize as real
    requires MinSize as real <= Propose(w, p).height <= MaxSize as real
    ensures ResizeMove(w, p).Ok?
    ensures NearStartAspect(w, ResizeMove(w, p).value.width, ResizeMove(w, p).value.height)
  {
    var pr := Propose(w, p);
    TruncationNearStartAspect(w, pr.width, pr.height, ClampToSize(pr.width), ClampToSize(pr.height));
  }

  /**
    Clamping acts on each side on its own: from a 200x100 label (aspect 2), a
    move that proposes 3000x1500 yields 2000x1500, so the aspect is distorted.
  */
  lemma ClampDistortsAspect()
    ensures var pressed := MousePress(NewLabel(Point(0, 0), 200, 100), LeftButton, Point(195, 5));
            && pressed.resizing
            && MouseMove(pressed, Point(2995, 5))
               == Ok(pressed.(pos := Point(0, -1400), width := 2000, height := 1500))
  {
    var w := NewLabel(Point(0, 0), 200, 100);
    assert ResizeZone(w, Point(195, 5)) == Some(TopRight);
    var pressed := MousePress(w, LeftButton, Point(195, 5));
    assert WidthDriven(pressed, Point(2995, 5));
    assert Propose(pressed, Point(2995, 5)) == Proposal(3000.0, 1500.0);
    assert ClampToSize(3000.0) == 2000 && ClampToSize(1500.0) == 1500;
  }

  /** A press near the handle of a 200x100 label, then a move 50 to the right. */
  lemma ResizeScenario()
    ensures var pressed := MousePress(NewLabel(Point(0, 0), 200, 100), LeftButton, Point(195, 5));
            && pressed.resizing
            && MouseMove(pressed, Point(245, 5))
               == Ok(pressed.(pos := Point(0, -25), width := 250, height := 125))
  {
    var w := NewLabel(Point(0, 0), 200, 100);
    assert ResizeZone(w, Point(195, 5)) == Some(TopRight);
    var pressed := MousePress(w, LeftButton, Point(195, 5));
    assert WidthDriven(pressed, Point(245, 5));
    assert Propose(pressed, Point(245, 5)) == Proposal(250.0, 125.0);
    assert ClampToSize(250.0) == 250 && ClampToSize(125.0) == 125;
  }

  /** A press away from the handle, then a move: the label follows the pointer. */
  lemma DragScenario()
    ensures var pressed := MousePress(NewLabel(Point(0, 0), 200, 100), LeftButton, Point(10, 10));
            && pressed.dragging && pressed.dragOffset == Point(10, 10)
            && MouseMove(pressed, Point(110, 60)) == Ok(pressed.(pos := Point(100, 50)))
  {
  }

  // ---------------------------------------------------------------------------
  // Event sequences

  /** Running a concatenation runs the first part, then the second from where it stopped. */
  lemma {:induction false} RunAppend(w: Label, a: seq<Event>, b: seq<Event>)
    ensures Run(w, a + b) == (match Run(w, a) case Err(f) => Err(f) case Ok(v) => Run(v, b))
    decreases |a|
  {
    if |a| == 0 {
      assert a + b == b;
    } else {
      assert (a + b)[0] == a[0];
      assert (a + b)[1..] == a[1..] + b;
      match Step(w, a[0]) {
        case Err(f) =>
        case Ok(next) => RunAppend(next, a[1..], b);
      }
    }
  }

  /** Every label reached from a new one by any events keeps the gesture invariant. */
  lemma ReachableLabelsAreConsistent(pos: Point, width: nat, height: nat, events: seq<Event>)
    ensures Run(NewLabel(pos, width, height), events).Ok? ==>
              Consistent(Run(NewLabel(pos, width, height), events).value)
  {
  }

  /** A release ends any gesture, and a second release changes nothing. */
  lemma ReleaseEndsGesture(w: Label, events: seq<Event>)
    requires Run(w, events).Ok?
    ensures Run(w, events + [Release]).Ok?
    ensures Idle(Run(w, events + [Release]).value)
    ensures SameGeometry(Run(w, events).value, Run(w, events + [Release]).value)
    ensures Run(w, events + [Release, Release]) == Run(w, events + [Release])
  {
    var v := Run(w, events).value;
    RunAppend(w, events, [Release]);
    RunAppend(w, events, [Release, Release]);
    assert Run(v, [Release]) == Ok(MouseRelease(v));
    assert Run(v, [Release, Release]) == Run(MouseRelease(v), [Release]);
    assert MouseRelease(MouseRelease(v)) == MouseRelease(v);
  }

  /**
    A resize gesture: any number of moves after a press on the handle never
    raises when the start size is non-degenerate, keeps the gesture and its
    recorded start, and after each move the size is in bounds, the bottom edge
    is where it was at press and x has not moved.
  */
  lemma {:induction false} ResizeGesture(w: Label, events: seq<Event>)
    requires w.resizing && w.zoneActive == Some(TopRight)
    requires w.startHeight > 0 && w.startWidth > 0
    requires AllMoves(events)
    ensures Run(w, events).Ok?
    ensures OnlyGeometryChanged(w, Run(w, events).value)
    ensures Run(w, events).value.pos.x == w.pos.x
    ensures |events| > 0 ==> InBounds(Run(w, events).value)
    ensures |events| > 0 ==> BottomEdge(Run(w, events).value) == w.startBottomY
    decreases |events|
  {
    if |events| > 0 {
      var next := ResizeMove(w, events[0].at).value;
      assert Step(w, events[0]) == Ok(next);
      ResizeGesture(next, events[1..]);
    }
  }

  /**
    A drag gesture: any number of moves after a press off the handle keeps
    dragging with the same recorded offset and never changes the size.
  */
  lemma {:induction false} DragGesture(w: Label, events: seq<Event>)
    requires Consistent(w) && w.dragging
    requires AllMoves(events)
    ensures Run(w, events).Ok?
    ensures OnlyGeometryChanged(w, Run(w, events).value)
    ensures Run(w, events).value.width == w.width && Run(w, events).value.height == w.height
    decreases |events|
  {
    if |events| > 0 {
      var next := MouseMove(w, events[0].at).value;
      assert Step(w, events[0]) == Ok(next);
      DragGesture(next, events[1..]);
    }
  }

  /** Moves with no button gesture in progress only ever change the cursor hint. */
  lemma {:induction false} HoverKeepsGeometry(w: Label, events: seq<Event>)
    requires Idle(w) && AllMoves(events)
    ensures Run(w, events).Ok?
    ensures Run(w, events).value == w.(cursor := Run(w, events).value.cursor)
    decreases |events|
  {
    if |events| > 0 {
      var next := MouseMove(w, events[0].at).value;
      assert Step(w, events[0]) == Ok(next);
      HoverKeepsGeometry(next, events[1..]);
    }
  }
}
