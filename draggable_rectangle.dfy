/** The draggable rectangle: a vertical drag and an absolute resize, whose
    move and release handlers are window listeners attached on press and
    detached on release. Each pair of listeners is a pair of flags. */
module RectangleModel {

  datatype RectState = RectState(
    isDragging: bool,
    isResizing: bool,
    top: real,
    height: real,
    originalY: real,
    translateY: real,
    lastTranslateY: real,
    dragMoveAttached: bool,
    dragUpAttached: bool,
    resizeMoveAttached: bool,
    resizeUpAttached: bool)

  const INITIAL: RectState := RectState(false, false, 0.0, 128.0, 0.0, 0.0, 0.0, false, false, false, false)

  /** The drag listeners are attached exactly while dragging, the resize
      listeners exactly while resizing, and a rectangle not being dragged is
      drawn at its baseline. */
  predicate Valid(s: RectState)
  {
    && s.dragMoveAttached == s.dragUpAttached == s.isDragging
    && s.resizeMoveAttached == s.resizeUpAttached == s.isResizing
    && (!s.isDragging ==> s.translateY == s.lastTranslateY)
  }

  function DragStarted(s: RectState, clientY: real): RectState
  {
    s.(isDragging := true, originalY := clientY, dragMoveAttached := true, dragUpAttached := true)
  }

  /** handleDrag has no guard of its own: only the listener decides when it runs. */
  function Dragged(s: RectState, clientY: real): RectState
  {
    s.(translateY := clientY - s.originalY + s.lastTranslateY)
  }

  function DragEnded(s: RectState): RectState
  {
    s.(dragMoveAttached := false, dragUpAttached := false, isDragging := false, lastTranslateY := s.translateY)
  }

  function ResizeStarted(s: RectState): RectState
  {
    s.(resizeMoveAttached := true, resizeUpAttached := true, isResizing := true)
  }

  /** The new height is the pointer's position itself, not a displacement. */
  function Resized(s: RectState, clientY: real): RectState
  {
    s.(height := clientY)
  }

  function ResizeEnded(s: RectState): RectState
  {
    s.(resizeMoveAttached := false, resizeUpAttached := false, isResizing := false)
  }

  /** What the mouse does: a press on the rectangle or on its resize handle
      (which stops the press reaching the rectangle), a move anywhere, a
      release on the handle, on the rectangle, or elsewhere in the window. */
  datatype Mouse =
    | PressRect(clientY: real)
    | PressHandle
    | Move(clientY: real)
    | ReleaseHandle
    | ReleaseRect
    | ReleaseElsewhere

  /** The window's listeners for a release: those still attached run. */
  function WindowUp(s: RectState): RectState
  {
    var a := if s.dragUpAttached then DragEnded(s) else s;
    if a.resizeUpAttached then ResizeEnded(a) else a
  }

  /** The handlers a mouse event reaches, in the order the browser runs them:
      the target's own, the rectangle's as the event bubbles up (the
      handle's release bubbles, its press does not), then the window's. */
  function Dispatch(s: RectState, m: Mouse): RectState
  {
    match m
    case PressRect(y) => DragStarted(s, y)
    case PressHandle => ResizeStarted(s)
    case Move(y) =>
      var a := if s.dragMoveAttached then Dragged(s, y) else s;
      if a.resizeMoveAttached then Resized(a, y) else a
    case ReleaseHandle => WindowUp(DragEnded(ResizeEnded(s)))
    case ReleaseRect => WindowUp(DragEnded(s))
    case ReleaseElsewhere => WindowUp(s)
  }

  function Run(s: RectState, ms: seq<Mouse>): RectState
    decreases |ms|
  {
    if ms == [] then s else Run(Dispatch(s, ms[0]), ms[1..])
  }

  class DraggableRectangle {
    var isDragging: bool
    var isResizing: bool
    var top: real
    var height: real
    var originalY: real
    var translateY: real
    var lastTranslateY: real
    var dragMoveAttached: bool
    var dragUpAttached: bool
    var resizeMoveAttached: bool
    var resizeUpAttached: bool

    function State(): RectState
      reads this
    {
      RectState(isDragging, isResizing, top, height, originalY, translateY, lastTranslateY,
                dragMoveAttached, dragUpAttached, resizeMoveAttached, resizeUpAttached)
    }

    constructor ()
      ensures State() == INITIAL && Valid(State())
    {
      isDragging, isResizing, top, height := false, false, 0.0, 128.0;
      originalY, translateY, lastTranslateY := 0.0, 0.0, 0.0;
      dragMoveAttached, dragUpAttached, resizeMoveAttached, resizeUpAttached := false, false, false, false;
    }

    method HandleDragStart(clientY: real)
      modifies this
      ensures State() == DragStarted(old(State()), clientY)
    {
      isDragging := true;
      originalY := clientY;
      dragMoveAttached := true;
      dragUpAttached := true;
    }

    method HandleDrag(clientY: real)
      modifies this
      ensures State() == Dragged(old(State()), clientY)
    {
      translateY := clientY - originalY + lastTranslateY;
    }

    method HandleDragEnd()
      modifies this
      ensures State() == DragEnded(old(State()))
    {
      dragMoveAttached := false;
      dragUpAttached := false;
      isDragging := false;
      lastTranslateY := translateY;
    }

    method HandleResizeStart()
      modifies this
      ensures State() == ResizeStarted(old(State()))
    {
      resizeMoveAttached := true;
      resizeUpAttached := true;
      isResizing := true;
    }

    method HandleResize(clientY: real)
      modifies this
      ensures State() == Resized(old(State()), clientY)
    {
      height := clientY;
    }

    method HandleResizeEnd()
      modifies this
      ensures State() == ResizeEnded(old(State()))
    {
      resizeMoveAttached := false;
      resizeUpAttached := false;
      isResizing := false;
    }

    /** Delivers one mouse event to the handlers it reaches. */
    method OnMouse(m: Mouse)
      requires Valid(State())
      modifies this
      ensures Valid(State()) && State() == Dispatch(old(State()), m)
    {
      match m {
        case PressRect(y) => HandleDragStart(y);
        case PressHandle => HandleResizeStart();
        case Move(y) =>
          if dragMoveAttached { HandleDrag(y); }
          if resizeMoveAttached { HandleResize(y); }
        case ReleaseHandle =>
          HandleResizeEnd();
          HandleDragEnd();
          WindowRelease();
        case ReleaseRect =>
          HandleDragEnd();
          WindowRelease();
        case ReleaseElsewhere =>
          WindowRelease();
      }
      DispatchKeepsValid(old(State()), m);
    }

    method WindowRelease()
      modifies this
      ensures State() == WindowUp(old(State()))
    {
      if dragUpAttached { HandleDragEnd(); }
      if resizeUpAttached { HandleResizeEnd(); }
    }
  }

  // ---------------------------------------------------------------------
  // Properties

  /** A press starts a drag at the pointer and attaches both drag listeners,
      touching nothing else. */
  lemma DragStartedSpec(s: RectState, clientY: real)
    ensures var r := DragStarted(s, clientY);
            && r.isDragging && r.originalY == clientY && r.dragMoveAttached && r.dragUpAttached
            && r.(isDragging := s.isDragging, originalY := s.originalY,
                  dragMoveAttached := s.dragMoveAttached, dragUpAttached := s.dragUpAttached) == s
  {
  }

  /** A move draws the rectangle at the pointer's displacement since the
      press on top of the baseline, whatever the flags say. */
  lemma DraggedSpec(s: RectState, clientY: real)
    ensures Dragged(s, clientY).translateY - s.lastTranslateY == clientY - s.originalY
    ensures Dragged(s, clientY).(translateY := s.translateY) == s
  {
  }

  /** Ending a drag detaches both listeners and saves the drawn offset as the
      baseline; ending it twice is ending it once, so the rectangle's own
      release handler and the window's may both run. */
  lemma DragEndedSpec(s: RectState)
    ensures var r := DragEnded(s);
            && !r.isDragging && !r.dragMoveAttached && !r.dragUpAttached
            && r.lastTranslateY == s.translateY && r.translateY == s.translateY
            && DragEnded(r) == r
  {
  }

  /** The resize sets the height to the pointer position and leaves the
      translation alone; starting it attaches the resize listeners and does
      not start a drag; ending it detaches them and keeps the height. */
  lemma ResizeSpec(s: RectState, clientY: real)
    ensures Resized(s, clientY).height == clientY && Resized(s, clientY).(height := s.height) == s
    ensures var r := ResizeStarted(s);
            r.isResizing && r.resizeMoveAttached && r.resizeUpAttached && r.isDragging == s.isDragging &&
            r.translateY == s.translateY && r.height == s.height
    ensures var r := ResizeEnded(s);
            !r.isResizing && !r.resizeMoveAttached && !r.resizeUpAttached && r.height == s.height &&
            r.translateY == s.translateY
  {
  }

  lemma DispatchKeepsValid(s: RectState, m: Mouse)
    requires Valid(s)
    ensures Valid(Dispatch(s, m))
  {
  }

  /** Every state the mouse can lead to from the initial one is valid: the
      listeners match the flags and at rest the rectangle is drawn at its
      baseline, so a second drag continues from where the first ended. */
  lemma {:induction false} RunKeepsValid(s: RectState, ms: seq<Mouse>)
    requires Valid(s)
    ensures Valid(Run(s, ms))
    decreases |ms|
  {
    if ms != [] {
      DispatchKeepsValid(s, ms[0]);
      RunKeepsValid(Dispatch(s, ms[0]), ms[1..]);
    }
  }

  lemma ReachableValid(ms: seq<Mouse>)
    ensures Valid(Run(INITIAL, ms))
  {
    RunKeepsValid(INITIAL, ms);
  }

  /** A press, a move and a release on the rectangle moves its baseline by
      the pointer's displacement. */
  lemma DragAccumulates(s: RectState, y0: real, y1: real)
    requires Valid(s) && !s.isDragging && !s.isResizing
    ensures Run(s, [PressRect(y0), Move(y1), ReleaseRect]).lastTranslateY == s.lastTranslateY + (y1 - y0)
    ensures !Run(s, [PressRect(y0), Move(y1), ReleaseRect]).isDragging
  {
    var s1 := Dispatch(s, PressRect(y0));
    var s2 := Dispatch(s1, Move(y1));
    assert [PressRect(y0), Move(y1), ReleaseRect][1..] == [Move(y1), ReleaseRect];
    assert [Move(y1), ReleaseRect][1..] == [ReleaseRect];
    assert Run(s2, [ReleaseRect]) == Dispatch(s2, ReleaseRect) by { assert [ReleaseRect][1..] == []; }
    assert Run(s1, [Move(y1), ReleaseRect]) == Run(s2, [ReleaseRect]);
  }
}
