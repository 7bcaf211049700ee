/** The task card: an earlier vertical drag and resize state machine whose
    drag accumulates onto a saved baseline. */
module TaskCardModel {

  /** The added pixels that keep the resize handle under the pointer. */
  const RESIZE_SLACK: real := 15.0

  datatype TaskState = TaskState(
    isDragging: bool,
    originalY: real,
    translateY: real,
    lastTranslateY: real,
    isResizing: bool,
    height: real)

  const INITIAL: TaskState := TaskState(false, 0.0, 0.0, 0.0, false, 75.0)

  /** Not dragging, the card is drawn at its saved baseline. */
  predicate AtRest(s: TaskState)
  {
    !s.isDragging ==> s.translateY == s.lastTranslateY
  }

  function DragStarted(s: TaskState, clientY: real): TaskState
  {
    s.(isDragging := true, originalY := clientY)
  }

  function Dragged(s: TaskState, clientY: real): TaskState
  {
    if !s.isDragging then s else s.(translateY := clientY - s.originalY + s.lastTranslateY)
  }

  /** handleDragEnd runs whether or not a drag is under way. */
  function DragEnded(s: TaskState): TaskState
  {
    s.(isDragging := false, lastTranslateY := s.translateY)
  }

  function ResizeStarted(s: TaskState): TaskState
  {
    s.(isResizing := true)
  }

  function Resized(s: TaskState, clientY: real, parentTop: real): TaskState
  {
    if !s.isResizing then s else s.(height := clientY + RESIZE_SLACK - parentTop)
  }

  function ResizeEnded(s: TaskState): TaskState
  {
    s.(isResizing := false)
  }

  /** A call of one of the six handlers, with the pointer data it reads. */
  datatype TaskInput =
    | DragStart(clientY: real)
    | Drag(clientY: real)
    | DragEnd
    | ResizeStart
    | Resize(clientY: real, parentTop: real)
    | ResizeEnd

  function Apply(s: TaskState, i: TaskInput): TaskState
  {
    match i
    case DragStart(y) => DragStarted(s, y)
    case Drag(y) => Dragged(s, y)
    case DragEnd => DragEnded(s)
    case ResizeStart => ResizeStarted(s)
    case Resize(y, top) => Resized(s, y, top)
    case ResizeEnd => ResizeEnded(s)
  }

  /** The state after the handlers run one after the other. */
  function Run(s: TaskState, inputs: seq<TaskInput>): TaskState
    decreases |inputs|
  {
    if inputs == [] then s else Run(Apply(s, inputs[0]), inputs[1..])
  }

  class TaskCard {
    var isDragging: bool
    var originalY: real
    var translateY: real
    var lastTranslateY: real
    var isResizing: bool
    var height: real

    function State(): TaskState
      reads this
    {
      TaskState(isDragging, originalY, translateY, lastTranslateY, isResizing, height)
    }

    predicate Valid()
      reads this
    {
      AtRest(State())
    }

    constructor ()
      ensures State() == INITIAL && Valid()
    {
      isDragging, originalY, translateY, lastTranslateY := false, 0.0, 0.0, 0.0;
      isResizing, height := false, 75.0;
    }

    method HandleDragStart(clientY: real)
      requires Valid()
      modifies this
      ensures Valid() && State() == DragStarted(old(State()), clientY)
    {
      isDragging := true;
      originalY := clientY;
    }

    method HandleDrag(clientY: real)
      requires Valid()
      modifies this
      ensures Valid() && State() == Dragged(old(State()), clientY)
    {
      if !isDragging {
        return;
      }
      translateY := clientY - originalY + lastTranslateY;
    }

    method HandleDragEnd()
      requires Valid()
      modifies this
      ensures Valid() && State() == DragEnded(old(State()))
    {
      isDragging := false;
      lastTranslateY := translateY;
    }

    method HandleResizeStart()
      requires Valid()
      modifies this
      ensures Valid() && State() == ResizeStarted(old(State()))
    {
      isResizing := true;
    }

    method HandleResize(clientY: real, parentTop: real)
      requires Valid()
      modifies this
      ensures Valid() && State() == Resized(old(State()), clientY, parentTop)
    {
      if !isResizing {
        return;
      }
      height := clientY + RESIZE_SLACK - parentTop;
    }

    method HandleResizeEnd()
      requires Valid()
      modifies this
      ensures Valid() && State() == ResizeEnded(old(State()))
    {
      isResizing := false;
    }
  }

  // ---------------------------------------------------------------------
  // Properties

  lemma InitialAtRest()
    ensures AtRest(INITIAL) && !INITIAL.isDragging && !INITIAL.isResizing
    ensures INITIAL.translateY == 0.0 && INITIAL.height == 75.0
  {
  }

  /** A press records the pointer and starts a drag, nothing else. */
  lemma DragStartedSpec(s: TaskState, clientY: real)
    ensures DragStarted(s, clientY).isDragging && DragStarted(s, clientY).originalY == clientY
    ensures DragStarted(s, clientY).(isDragging := s.isDragging, originalY := s.originalY) == s
  {
  }

  /** A move while not dragging does nothing; while dragging only the drawn
      offset changes, to the pointer displacement on top of the baseline. */
  lemma DraggedSpec(s: TaskState, clientY: real)
    ensures !s.isDragging ==> Dragged(s, clientY) == s
    ensures s.isDragging ==> Dragged(s, clientY).translateY - s.lastTranslateY == clientY - s.originalY
    ensures Dragged(s, clientY).(translateY := s.translateY) == s
  {
  }

  /** Ending a drag saves the drawn offset as the new baseline. */
  lemma DragEndedSpec(s: TaskState)
    ensures !DragEnded(s).isDragging && AtRest(DragEnded(s))
    ensures DragEnded(s).translateY == s.translateY
    ensures DragEnded(DragEnded(s)) == DragEnded(s)
  {
  }

  /** Resizing changes only the height, and only while resizing; starting
      and ending a resize change only the flag. */
  lemma ResizeSpec(s: TaskState, clientY: real, parentTop: real)
    ensures !s.isResizing ==> Resized(s, clientY, parentTop) == s
    ensures s.isResizing ==> Resized(s, clientY, parentTop).height + parentTop == clientY + RESIZE_SLACK
    ensures Resized(s, clientY, parentTop).(height := s.height) == s
    ensures ResizeStarted(s).isResizing && ResizeStarted(s).(isResizing := s.isResizing) == s
    ensures !ResizeEnded(s).isResizing && ResizeEnded(s).(isResizing := s.isResizing) == s
  {
  }

  lemma ApplyKeepsAtRest(s: TaskState, i: TaskInput)
    requires AtRest(s)
    ensures AtRest(Apply(s, i))
  {
  }

  /** Whatever the handlers run and in whatever order, a card that is not
      being dragged is drawn at its baseline. */
  lemma {:induction false} RunKeepsAtRest(s: TaskState, inputs: seq<TaskInput>)
    requires AtRest(s)
    ensures AtRest(Run(s, inputs))
    decreases |inputs|
  {
    if inputs != [] {
      ApplyKeepsAtRest(s, inputs[0]);
      RunKeepsAtRest(Apply(s, inputs[0]), inputs[1..]);
    }
  }

  lemma ReachableAtRest(inputs: seq<TaskInput>)
    ensures AtRest(Run(INITIAL, inputs))
  {
    RunKeepsAtRest(INITIAL, inputs);
  }

  /** A complete drag (press, moves, release) adds to the baseline the
      displacement between the press and the last move. */
  lemma DragAccumulates(s: TaskState, y0: real, y1: real)
    requires AtRest(s) && !s.isDragging
    ensures Run(s, [DragStart(y0), Drag(y1), DragEnd]).lastTranslateY == s.lastTranslateY + (y1 - y0)
    ensures Run(s, [DragStart(y0), Drag(y1), DragEnd]).translateY == s.translateY + (y1 - y0)
  {
    var s1 := DragStarted(s, y0);
    var s2 := Dragged(s1, y1);
    assert [DragStart(y0), Drag(y1), DragEnd][1..] == [Drag(y1), DragEnd];
    assert [Drag(y1), DragEnd][1..] == [DragEnd];
    assert Run(s2, [DragEnd]) == DragEnded(s2) by { assert [DragEnd][1..] == []; }
    assert Run(s1, [Drag(y1), DragEnd]) == Run(s2, [DragEnd]);
  }
}
