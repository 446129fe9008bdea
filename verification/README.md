# Overlay widget geometry — a Dafny model

This project models the interaction core of a transparent desktop overlay (gui.py). Users place
images, animated GIFs and videos on the overlay as widgets, then drag and resize them with the
mouse. It covers four parts:

- **The resizable, draggable image label** (`ResizableDraggableImageLabel`), module
  `ResizableLabel`. This is a pointer-driven state machine. A left press within 30 units of the
  label's top-right corner starts a resize; any other left press starts a drag. While resizing,
  each move derives a new size from the start aspect ratio. It then clamps each side to
  [50, 2000], truncates to integers and pins the bottom edge recorded at press. While dragging,
  each move keeps the pointer at the offset recorded at press. A move with no gesture active only
  changes the cursor hint. A release always ends the gesture. Each handler is a total function
  from (label, event) to the next label. `Run` folds a sequence of events.
- **The plain drag handlers** of `ImageLabel` and `DraggableVideo`, module `DragLabels`.
- **The shared frame arithmetic**: `mapToParent` and the drag target, module `Pointer`.
- **The extension dispatch of `add_asset`**, module `AssetDispatch`. Python's
  `os.path.splitext` and `.lower()` are modelled character by character.

Modelling choices:

- `math.hypot(dx, dy) < 30` becomes the exact integer test `dx*dx + dy*dy < 900`.
- The aspect ratio and the derived side are exact `real`s. `int(...)` becomes `Floor`, which is
  exact because the clamped value is at least 50.
- The label keeps the source's two booleans and its active-zone field. So "never dragging and
  resizing at once" is a proved invariant (`Consistent`, preserved by `Step` and `Run`), not a
  fact of the encoding.
- A resize move raises `ZeroDivisionError` in Python in two cases: the recorded start height is
  0, or the start width is 0 and the move is width-driven (the derived side divides by a zero
  aspect ratio). The model returns `Err(ZeroDivision)` in both cases, and `Run` stops there.
- Event positions are local to the widget and are supplied by the host event loop, as Qt's
  `event.pos()` is.
- The `windows` flag of `AssetDispatch` selects the separator set `splitext` uses: `/`, or `\`
  and `/`.

Behaviour of the code that is easy to misread:

- The bottom edge stays pinned after every resize move, even when clamping triggers. The new `y`
  is computed from the clamped height (`ResizeMove`, `ResizeGesture`).
- The aspect ratio is kept only up to truncation to integers (`AspectKeptWithinTruncation`). It is
  not kept exactly.
- On the resizable label and on `ImageLabel`, a press changes anything only for the left button. `DraggableVideo` records the offset for any button.
- A resize move can fail, as described above.

## Model

| member | source | states |
|---|---|---|
| `Pointer.MapToParent` | gui.py:333 | mapping a local point to the parent is undone by subtracting the widget origin |
| `Pointer.DragTarget` | gui.py:333-334 | after a drag step, the pointer seen from the moved widget is exactly the recorded offset; the widget stays put iff the pointer is at the offset |
| `ResizableLabel.NewLabel` | gui.py:270-273 | a new label is idle, with neither gesture and no active zone |
| `ResizableLabel.ResizeZone` | gui.py:283-289 | a press counts as a handle hit only within 30 of (width, 0) on each axis, and every point within 21 of (width, 0) on both axes is a hit |
| `ResizableLabel.ZoneMissesOtherEdges` | gui.py:283-289 | on a label at least 30 wide and more than 30 high, no point of the left column (x = 0) or of the bottom row (y = height - 1) is a hit, so no other corner starts a resize; on a 30x30 label the bottom-right pixel is a hit |
| `ResizableLabel.ZoneBoundaryIsStrict` | gui.py:286-287 | a point at distance exactly 30 is not a hit; points just inside are |
| `ResizableLabel.MousePress` | gui.py:291-305 | a non-left press changes nothing; a left press sets exactly one of resizing (iff in the zone) and dragging; a resize press records the start size, press point and bottom edge; a drag press records the offset; geometry is untouched |
| `ResizableLabel.Propose` | gui.py:309-319 | the driving side grows by its pointer delta (dy inverted); before clamping, width/height equals the start aspect ratio (cross-multiplied) |
| `ResizableLabel.TieGoesToHeight` | gui.py:314-319 | when the pointer deltas tie, the height drives the resize |
| `ResizableLabel.ClampToSize` | gui.py:321-324 | the result lies in [50, 2000]; values at or below 50 give 50, at or above 2000 give 2000, and values in between are truncated |
| `ResizableLabel.ResizeMove` | gui.py:307-330 | a resize move raises iff the start height is 0, or the start width is 0 and the move is width-driven; otherwise both sides are in [50, 2000], y + height equals the bottom edge recorded at press, x is unchanged, only geometry changes, and each side is the derived side clamped to [50, 2000] and truncated |
| `ResizableLabel.AspectKeptWithinTruncation` | gui.py:309-324 | without clamping, width*startHeight and height*startWidth differ by less than one start side |
| `ResizableLabel.ClampDistortsAspect` | gui.py:321-326 | a 200x100 label resized towards 3000 wide becomes 2000x1500 at y = -1400: each side is clamped on its own |
| `ResizableLabel.ResizeScenario` | gui.py:291-330 | a 200x100 label at the origin, pressed at (195, 5) and moved to (245, 5), becomes 250x125 at (0, -25) |
| `ResizableLabel.DragScenario` | gui.py:301-334 | the same label pressed at (10, 10) and moved to (110, 60) moves to (100, 50) |
| `ResizableLabel.MouseMove` | gui.py:307-341 | a resizing label behaves as `ResizeMove`, its new sides being the clamped derived sides; a dragging label moves so the pointer stays at the recorded offset and keeps its size; an idle label changes only its cursor hint, which is the resize cursor iff the pointer is in the zone |
| `ResizableLabel.MouseRelease` | gui.py:343-347 | a release from any state clears both gestures and the active zone, resets the cursor, and changes no geometry or recorded start |
| `ResizableLabel.Step` | gui.py:291-347 | every event keeps the gesture invariant and the size bounds; only a move during a resize can raise |
| `ResizableLabel.Run` | gui.py:291-347 | any event sequence keeps the gesture invariant and, from an in-bounds size, the size bounds |
| `ResizableLabel.ReachableLabelsAreConsistent` | gui.py:270-305 | no label reached from construction is ever both dragging and resizing |
| `ResizableLabel.ReleaseEndsGesture` | gui.py:343-347 | after any events, a release makes the label idle without moving it, and a second release changes nothing |
| `ResizableLabel.ResizeGesture` | gui.py:307-330 | with a non-zero start size, any run of moves during a resize never raises, keeps x and the recorded start, and ends in bounds with the bottom edge pinned |
| `ResizableLabel.DragGesture` | gui.py:332-334 | any run of moves during a drag keeps dragging with the same offset and the same size |
| `ResizableLabel.HoverKeepsGeometry` | gui.py:336-341 | any run of moves with no gesture changes nothing but the cursor hint |
| `DragLabels.NewImageLabel` | gui.py:196-199 | a new image label has recorded no offset |
| `DragLabels.ImagePress` | gui.py:235-237 | only a left press records the press point as the offset |
| `DragLabels.ImageMoveAsWritten` | gui.py:239-241 | the label is dragged (pointer kept at the offset) only when the offset is truthy in PyQt5 and the left button is held; otherwise nothing changes |
| `DragLabels.ImageMove` | gui.py:239-241 | the label is dragged whenever an offset was recorded and the left button is held |
| `DragLabels.ImageMoveAgreesAwayFromOrigin` | gui.py:239-241 | the two handlers agree unless the offset is (0, 0) |
| `DragLabels.ImageMoveStuckAfterOriginPress` | gui.py:235-241 | after a left press at local (0, 0), the handler as written does not follow the pointer; the corrected one does |
| `DragLabels.ImageStuckWithoutTruthyOffset` | gui.py:239-241 | with the handler as written, a label whose offset is false in PyQt5 (never pressed, or pressed at (0, 0)) stays put through every run of moves, the left button held or not |
| `DragLabels.ImageMovesAccumulate` | gui.py:239-241 | with the corrected handler and the left button held, a pressed label keeps its offset over any run of moves and ends displaced by the sum of the pointer's displacements from the offset |
| `DragLabels.NewVideo` | gui.py:52-55 | a new video is 320x240 at the requested position, with the null offset |
| `DragLabels.VideoPress` | gui.py:67-68 | any press, whatever the button, records the offset and neither moves nor resizes the video |
| `DragLabels.VideoMove` | gui.py:70-71 | a move keeps the pointer at the recorded offset and the size unchanged; the video stays put iff the pointer is at the offset |
| `DragLabels.VideoPressThenMoveInPlace` | gui.py:67-71 | pressing and moving to the same point leaves the video in place |
| `AssetDispatch.RFind` | gui.py:446 | the result is -1 or an index holding one of the targets, and no later index holds one |
| `AssetDispatch.LowerChar` | gui.py:446 | an upper-case ASCII letter becomes the same letter in lower case, and every other character is kept |
| `AssetDispatch.Lower` | gui.py:446 | the result has the input's length and lower-cases it character by character |
| `AssetDispatch.SplitExt` | gui.py:446 | the extension is a suffix of the path; when non-empty it is a dot with no further dot or separator, after a last path component that is not all dots |
| `AssetDispatch.SplitExtOfStemAndExtension` | gui.py:446 | conversely, such a stem followed by such an extension splits exactly there |
| `AssetDispatch.AddAsset` | gui.py:445-452 | a handler runs only for a path with an extension; the path then ends, ignoring case, with `.gif` for an animation, one of png/jpg/jpeg/bmp for an image, `.mp4` for a video |
| `AssetDispatch.AddAssetByExtension` | gui.py:445-452 | the lower-cased extension selects `.gif` to animation, png/jpg/jpeg/bmp to image, `.mp4` to video, and nothing for any other extension |
| `AssetDispatch.NoExtensionNoHandler` | gui.py:445-452 | a path without an extension selects no handler |
| `AssetDispatch.SplitExtIgnoresCase` | gui.py:446 | splitting a lower-cased path gives the lower-cased extension |
| `AssetDispatch.AddAssetIgnoresCase` | gui.py:446 | lower-casing the whole path does not change the handler chosen |
| `AssetDispatch.AddAssetCaseInsensitive` | gui.py:446-452 | two paths that agree character by character up to ASCII letter case select the same handler |
| `AssetDispatch.UpperCaseGifIsAnimation` | gui.py:446-448 | `assets/cat.GIF` is an animation |
| `AssetDispatch.LastExtensionCounts` | gui.py:445-452 | `assets/archive.gif.zip` selects no handler |
| `AssetDispatch.WindowsPathVideo` | gui.py:451-452 | `C:\clips\intro.mp4`, a Windows path, is a video |

## Findings

| source | as written | input that shows it | evidently intended | confidence | as-written member | corrected member |
|---|---|---|---|---|---|---|
| gui.py:240 | `if self.offset and ...` tests the recorded `QPoint` for truth; in PyQt5 a null `QPoint(0, 0)` is false | left press at local (0, 0) of an `ImageLabel`, then a move to (5, 5) with the left button held: the label does not move | drag whenever a press has recorded an offset (`self.offset is not None`) | medium; depends on PyQt5's `QPoint.__bool__`; not executed | `DragLabels.ImageMoveAsWritten` (`DragLabels.ImageMoveStuckAfterOriginPress`, `DragLabels.ImageStuckWithoutTruthyOffset`) | `DragLabels.ImageMove` |

## Left out

- Control-key dashed border (gui.py:275-281): a stylesheet side effect independent of the state machine.
- Window setup, translucency and always-on-top flags (gui.py:73-80): toolkit configuration.
- Cursor shapes are modelled only as a three-valued hint; actual cursor rendering is toolkit work.
- Media loading and initial widget sizes (gui.py:195-233, 371-385, 459-476): QMovie, QPixmap and QMediaPlayer decoding, playback and thumbnail scaling are foreign libraries. `NewLabel` takes the initial size as a parameter.
- What the chosen handler of `add_asset` creates (gui.py:454-476): `AddAsset` yields only which handler runs. Creating the widget depends on media decoding.
- File dialogs, copying, deletion, directory listing, the asset library and context menus (gui.py:31-49, 156-173, 243-261, 387-438): file-system and UI plumbing.
- The GIF menu and preview-window bookkeeping (gui.py:82-193): object-lifetime management in Qt.
- The online GIF fetch (gui.py:478-494): network I/O.
- main.py: it only wires widgets together and starts the event loop.
- IEEE-754 rounding of the aspect ratio and of the derived side: reals are exact, so a float result next to a whole number may truncate to a neighbouring integer.
- 32-bit overflow of Qt's integer coordinates: coordinates are unbounded integers.
- Event delivery: which events Qt sends (for example, a `DraggableVideo` without mouse tracking receives moves only while a button is down) is left to the host. The handlers accept any event sequence.
- What happens after a handler raises (PyQt5 aborts the application): `Run` stops at the first `Err`.
- `.lower()` is ASCII lower-casing. Python's Unicode lowering of a non-ASCII character never completes one of the six extensions (`İ` lowers to two characters, the Kelvin sign to `k`), so the handler chosen is the same.
- `DragGesture`: states offset and size preservation over the whole run. The pointer-at-offset property is stated per move, by `MouseMove`, not re-stated for every prefix of the run.
