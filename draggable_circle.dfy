/** The draggable circle: a two-dimensional drag onto saved baselines, with
    window listeners for the move and the release attached on press and
    detached on release. */
module CircleModel {

  datatype CircleState = CircleState(
    isDragging: bool,
    originalX: real,
    originalY: real,
    translateX: real,
    translateY: real,
    lastTranslateX: real,
    lastTranslateY: real,
    moveAttached: bool,
    upAttached: bool)

  const INITIAL: CircleState := CircleState(false, 0.0, 0.0, 0.0, 0.0, 0.0, 0.0, false, false)

  /** Not dragging, the circle is drawn at its baseline on both axes. */
  predicate AtRest(s: CircleState)
  {
    !s.isDragging ==> s.translateX == s.lastTranslateX && s.translateY == s.lastTranslateY
  }

  /** The listeners are attached exactly while dragging, and at rest. */
  predicate Valid(s: CircleState)
  {
    s.moveAttached == s.upAttached == s.isDragging && AtRest(s)
  }

  function DragStarted(s: CircleState, clientX: real, clientY: real): CircleState
  {
    s.(isDragging := true, originalX := clientX, originalY := clientY, moveAttached := true, upAttached := true)
  }

  function Dragged(s: CircleState, clientX: real, clientY: real): CircleState
  {
    s.(translateX := clientX - s.originalX + s.lastTranslateX,
       translateY := clientY - s.originalY + s.lastTranslateY)
  }

  function DragEnded(s: CircleState): CircleState
  {
    s.(moveAttached := false, upAttached := false, isDragging := false,
       lastTranslateX := s.translateX, lastTranslateY := s.translateY)
  }

  /** A press on the circle, a move anywhere, a release on the circle or
      elsewhere in the window. */
  datatype Mouse =
    | Press(clientX: real, clientY: real)
    | Move(clientX: real, clientY: real)
    | ReleaseCircle
    | ReleaseElsewhere

  /** A release on the circle runs the circle's own handler and then, as the
      event bubbles, the window's listener. The own handler is created in a
      later render than the listeners attached at the press, so the
      listeners it removes were never attached; the window's listener then
      ends the drag a second time and detaches itself. Ending a drag twice
      gives the state ending it once does (DragEndedSpec), so the release is
      modelled as one end with both flags cleared. Elsewhere only the
      window's listener runs, if it is attached. */
  function Dispatch(s: CircleState, m: Mouse): CircleState
  {
    match m
    case Press(x, y) => DragStarted(s, x, y)
    case Move(x, y) => if s.moveAttached then Dragged(s, x, y) else s
    case ReleaseCircle => DragEnded(s)
    case ReleaseElsewhere => if s.upAttached then DragEnded(s) else s
  }

  function Run(s: CircleState, ms: seq<Mouse>): CircleState
    decreases |ms|
  {
    if ms == [] then s else Run(Dispatch(s, ms[0]), ms[1..])
  }

  class DraggableCircle {
    var isDragging: bool
    var originalX: real
    var originalY: real
    var translateX: real
    var translateY: real
    var lastTranslateX: real
    var lastTranslateY: real
    var moveAttached: bool
    var upAttached: bool

    function State(): CircleState
      reads this
    {
      CircleState(isDragging, originalX, originalY, translateX, translateY, lastTranslateX, lastTranslateY,
                  moveAttached, upAttached)
    }

    constructor ()
      ensures State() == INITIAL && Valid(State())
    {
      isDragging, originalX, originalY := false, 0.0, 0.0;
      translateX, translateY, lastTranslateX, lastTranslateY := 0.0, 0.0, 0.0, 0.0;
      moveAttached, upAttached := false, false;
    }

    method HandleDragStart(clientX: real, clientY: real)
      modifies this
      ensures State() == DragStarted(old(State()), clientX, clientY)
    {
      isDragging := true;
      originalX := clientX;
      originalY := clientY;
      moveAttached := true;
      upAttached := true;
    }

    method HandleDrag(clientX: real, clientY: real)
      modifies this
      ensures State() == Dragged(old(State()), clientX, clientY)
    {
      translateX := clientX - originalX + lastTranslateX;
      translateY := clientY - originalY + lastTranslateY;
    }

    method HandleDragEnd()
      modifies this
      ensures State() == DragEnded(old(State()))
    {
      moveAttached := false;
      upAttached := false;
      isDragging := false;
      lastTranslateX := translateX;
      lastTranslateY := translateY;
    }

    /** Delivers one mouse event to the handlers it reaches. */
    method OnMouse(m: Mouse)
      requires Valid(State())
      modifies this
      ensures Valid(State()) && State() == Dispatch(old(State()), m)
    {
      match m {
        case Press(x, y) => HandleDragStart(x, y);
        case Move(x, y) =>
          if moveAttached { HandleDrag(x, y); }
        case ReleaseCircle => HandleDragEnd();
        case ReleaseElsewhere =>
          if upAttached { HandleDragEnd(); }
      }
      DispatchKeepsValid(old(State()), m);
    }
  }

  // ---------------------------------------------------------------------
  // Properties

  /** A press records both pointer coordinates and attaches the listeners,
      touching nothing else. */
  lemma DragStartedSpec(s: CircleState, x: real, y: real)
    ensures var r := DragStarted(s, x, y);
            && r.isDragging && r.originalX == x && r.originalY == y && r.moveAttached && r.upAttached
            && r.(isDragging := s.isDragging, originalX := s.originalX, originalY := s.originalY,
                  moveAttached := s.moveAttached, upAttached := s.upAttached) == s
  {
  }

  /** Each axis follows its own pointer coordinate, independently of the other. */
  lemma DraggedSpec(s: CircleState, x: real, y: real, x': real, y': real)
    ensures Dragged(s, x, y).translateX - s.lastTranslateX == x - s.originalX
    ensures Dragged(s, x, y).translateY - s.lastTranslateY == y - s.originalY
    ensures Dragged(s, x, y).translateX == Dragged(s, x, y').translateX
    ensures Dragged(s, x, y).translateY == Dragged(s, x', y).translateY
    ensures Dragged(s, x, y).(translateX := s.translateX, translateY := s.translateY) == s
  {
  }

  /** Ending a drag detaches the listeners and saves both offsets; a second
      end changes nothing. */
  lemma DragEndedSpec(s: CircleState)
    ensures var r := DragEnded(s);
            && !r.isDragging && !r.moveAttached && !r.upAttached && AtRest(r)
            && r.translateX == s.translateX && r.translateY == s.translateY
            && DragEnded(r) == r
  {
  }

  lemma DispatchKeepsValid(s: CircleState, m: Mouse)
    requires Valid(s)
    ensures Valid(Dispatch(s, m))
  {
  }

  lemma {:induction false} RunKeepsValid(s: CircleState, ms: seq<Mouse>)
    requires Valid(s)
    ensures Valid(Run(s, ms))
    decreases |ms|
  {
    if ms != [] {
      DispatchKeepsValid(s, ms[0]);
      RunKeepsValid(Dispatch(s, ms[0]), ms[1..]);
    }
  }

  /** In every state the mouse can lead to, the listeners match the drag flag
      and at rest the circle is drawn at its baseline on both axes. */
  lemma ReachableValid(ms: seq<Mouse>)
    ensures Valid(Run(INITIAL, ms))
  {
    RunKeepsValid(INITIAL, ms);
  }

  /** One drag: a press, a move, a release on the circle. */
  function Gesture(x0: real, y0: real, x1: real, y1: real): seq<Mouse>
  {
    [Press(x0, y0), Move(x1, y1), ReleaseCircle]
  }

  lemma GestureEffect(s: CircleState, x0: real, y0: real, x1: real, y1: real)
    requires Valid(s) && !s.isDragging
    ensures var r := Run(s, Gesture(x0, y0, x1, y1));
            && Valid(r) && !r.isDragging
            && r.translateX == s.translateX + (x1 - x0)
            && r.translateY == s.translateY + (y1 - y0)
  {
    var g := Gesture(x0, y0, x1, y1);
    var s1 := Dispatch(s, g[0]);
    var s2 := Dispatch(s1, g[1]);
    assert g[1..] == [Move(x1, y1), ReleaseCircle];
    assert g[1..][1..] == [ReleaseCircle];
    assert Run(s2, [ReleaseCircle]) == Dispatch(s2, ReleaseCircle) by { assert [ReleaseCircle][1..] == []; }
    assert Run(s1, g[1..]) == Run(s2, [ReleaseCircle]);
  }

  /** A drag released where it was pressed leaves the circle where it was. */
  lemma ReturnLeavesPositionUnchanged(s: CircleState, x: real, y: real)
    requires Valid(s) && !s.isDragging
    ensures Run(s, Gesture(x, y, x, y)).translateX == s.translateX
    ensures Run(s, Gesture(x, y, x, y)).translateY == s.translateY
  {
    GestureEffect(s, x, y, x, y);
  }

  lemma {:induction false} RunAppend(s: CircleState, a: seq<Mouse>, b: seq<Mouse>)
    ensures Run(s, a + b) == Run(Run(s, a), b)
    decreases |a|
  {
    if a == [] {
      assert a + b == b;
    } else {
      assert (a + b)[0] == a[0] && (a + b)[1..] == a[1..] + b;
      RunAppend(Dispatch(s, a[0]), a[1..], b);
    }
  }

  /** Two successive drags compose: the net translation is the sum of the
      two pointer displacements on each axis. */
  lemma TwoDragsCompose(s: CircleState, x0: real, y0: real, x1: real, y1: real,
                        x2: real, y2: real, x3: real, y3: real)
    requires Valid(s) && !s.isDragging
    ensures var r := Run(s, Gesture(x0, y0, x1, y1) + Gesture(x2, y2, x3, y3));
            && r.translateX == s.translateX + (x1 - x0) + (x3 - x2)
            && r.translateY == s.translateY + (y1 - y0) + (y3 - y2)
  {
    RunAppend(s, Gesture(x0, y0, x1, y1), Gesture(x2, y2, x3, y3));
    GestureEffect(s, x0, y0, x1, y1);
    GestureEffect(Run(s, Gesture(x0, y0, x1, y1)), x2, y2, x3, y3);
  }
}
