/** The event card's drag, resize and double-click state machine. The card's
    state record is a class whose methods are the pointer handlers; each
    handler's effect is the transition function on the record named in its
    postcondition, and the lemmas below are about those functions. The
    pointer and element coordinates are parameters, and the two coordinate
    mappers of the page are passed in as functions. */
module EventCardModel {
  import opened PlannerTypes
  import opened Coordinates

  /** Padding between a card and the edges of its timeslot band, in pixels. */
  const CARD_Y_PADDING: real := 3.0

  /** The added pixels that keep the resize handle under the pointer. */
  const RESIZE_SLACK: real := 15.0

  datatype CardState = CardState(
    isDragging: bool,
    originalY: real,
    translateY: real,
    lastTranslateY: real,
    isResizing: bool,
    height: real,
    isModalOpen: bool)

  const INITIAL: CardState := CardState(false, 0.0, 0.0, 0.0, false, 0.0, false)

  /** What the position mapper hands back: either edge may be missing. */
  datatype Position = Position(top: Option<real>, bottom: Option<real>)

  /** The arguments of a handleUpdateEvent call for this card's event. */
  datatype Reschedule = Reschedule(start: Time, end: Time)

  /** positionEvent: with both edges known, the card sits CARD_Y_PADDING
      below the band's top, remembers the top as its baseline, is as tall as
      the band less both paddings, and is neither dragged nor resized. */
  function Positioned(s: CardState, p: Position): CardState
  {
    if p.top.Some? && p.bottom.Some? then
      s.(isDragging := false, isResizing := false,
         translateY := p.top.value + CARD_Y_PADDING, lastTranslateY := p.top.value,
         height := p.bottom.value - p.top.value - CARD_Y_PADDING * 2.0)
    else s
  }

  function Toggled(s: CardState): CardState
  {
    s.(isModalOpen := !s.isModalOpen)
  }

  /** handleDragStart: a double click only toggles the modal. */
  function DragStarted(s: CardState, detail: int, clientY: real): CardState
  {
    if detail == 2 then Toggled(s) else s.(isDragging := true, originalY := clientY)
  }

  /** Where a dragged card is drawn: the pointer's displacement since the
      press, added to the baseline. */
  function DragTarget(s: CardState, clientY: real): real
  {
    clientY - s.originalY + s.lastTranslateY
  }

  function Dragged(s: CardState, clientY: real): CardState
  {
    if !s.isDragging then s else s.(translateY := DragTarget(s, clientY))
  }

  /** The event update a drag move issues: when the mapped hour is known and
      differs from the start hour, the start takes that hour and the end is
      moved by as many hours. */
  function DragReschedule(s: CardState, event: AgendaEvent, clientY: real, hourAt: real -> Option<int>)
    : Option<Reschedule>
  {
    if !s.isDragging then None
    else
      var hour := hourAt(DragTarget(s, clientY));
      if hour.Some? && HourOf(event.start) != hour.value then
        var change := HourOf(event.start) - hour.value;
        Some(Reschedule(SetHours(event.start, hour.value), SetHours(event.end, HourOf(event.end) - change)))
      else None
  }

  function DragEnded(s: CardState, p: Position): CardState
  {
    if !s.isDragging then s else Positioned(s.(isDragging := false), p)
  }

  function ResizeStarted(s: CardState): CardState
  {
    s.(isResizing := true)
  }

  /** handleResize: the card's height follows the pointer below the top of
      the card's container. */
  function Resized(s: CardState, clientY: real, parentTop: real): CardState
  {
    if !s.isResizing then s else s.(height := clientY - parentTop + RESIZE_SLACK)
  }

  /** The event update a resize move issues: the end takes the hour after
      the one the container's bottom edge maps to, unless it already has it. */
  function ResizeReschedule(s: CardState, event: AgendaEvent, parentBottom: real, hourAt: real -> Option<int>)
    : Option<Reschedule>
  {
    if !s.isResizing then None
    else
      var hour := hourAt(parentBottom);
      if hour.Some? && HourOf(event.end) != hour.value + 1 then
        Some(Reschedule(event.start, SetHours(event.end, hour.value + 1)))
      else None
  }

  function ResizeEnded(s: CardState, p: Position): CardState
  {
    Positioned(s.(isResizing := false), p)
  }

  class EventCard {
    var isDragging: bool
    var originalY: real
    var translateY: real
    var lastTranslateY: real
    var isResizing: bool
    var height: real
    var isModalOpen: bool

    function State(): CardState
      reads this
    {
      CardState(isDragging, originalY, translateY, lastTranslateY, isResizing, height, isModalOpen)
    }

    constructor ()
      ensures State() == INITIAL
    {
      isDragging, originalY, translateY, lastTranslateY := false, 0.0, 0.0, 0.0;
      isResizing, height, isModalOpen := false, 0.0, false;
    }

    method PositionEvent(event: AgendaEvent, positionFor: (Time, Time) -> Position)
      modifies this
      ensures State() == Positioned(old(State()), positionFor(event.start, event.end))
    {
      var p := positionFor(event.start, event.end);
      if p.top.Some? && p.bottom.Some? {
        var top, bottom := p.top.value, p.bottom.value;
        isDragging := false;
        isResizing := false;
        translateY := top + CARD_Y_PADDING;
        lastTranslateY := top;
        height := bottom - top - CARD_Y_PADDING * 2.0;
      }
    }

    method HandleDoubleClick()
      modifies this
      ensures State() == Toggled(old(State()))
    {
      isModalOpen := !isModalOpen;
    }

    method HandleDragStart(detail: int, clientY: real)
      modifies this
      ensures State() == DragStarted(old(State()), detail, clientY)
    {
      if detail == 2 {
        HandleDoubleClick();
        return;
      }
      isDragging := true;
      originalY := clientY;
    }

    method HandleDrag(event: AgendaEvent, clientY: real, hourAt: real -> Option<int>)
      returns (update: Option<Reschedule>)
      modifies this
      ensures State() == Dragged(old(State()), clientY)
      ensures update == DragReschedule(old(State()), event, clientY, hourAt)
    {
      if !isDragging {
        return None;
      }
      var newY := clientY - originalY + lastTranslateY;
      var hour := hourAt(newY);
      update := None;
      if hour.Some? && HourOf(event.start) != hour.value {
        var change := HourOf(event.start) - hour.value;
        update := Some(Reschedule(SetHours(event.start, hour.value), SetHours(event.end, HourOf(event.end) - change)));
      }
      translateY := newY;
    }

    method HandleDragEnd(event: AgendaEvent, positionFor: (Time, Time) -> Position)
      modifies this
      ensures State() == DragEnded(old(State()), positionFor(event.start, event.end))
    {
      if !isDragging {
        return;
      }
      isDragging := false;
      PositionEvent(event, positionFor);
    }

    method HandleResizeStart()
      modifies this
      ensures State() == ResizeStarted(old(State()))
    {
      isResizing := true;
    }

    method HandleResize(event: AgendaEvent, clientY: real, parentTop: real, parentBottom: real,
                        hourAt: real -> Option<int>)
      returns (update: Option<Reschedule>)
      modifies this
      ensures State() == Resized(old(State()), clientY, parentTop)
      ensures update == ResizeReschedule(old(State()), event, parentBottom, hourAt)
    {
      if !isResizing {
        return None;
      }
      height := clientY - parentTop + RESIZE_SLACK;
      var hour := hourAt(parentBottom);
      update := None;
      if hour.Some? && HourOf(event.end) != hour.value + 1 {
        update := Some(Reschedule(event.start, SetHours(event.end, hour.value + 1)));
      }
    }

    method HandleResizeEnd(event: AgendaEvent, positionFor: (Time, Time) -> Position)
      modifies this
      ensures State() == ResizeEnded(old(State()), positionFor(event.start, event.end))
    {
      isResizing := false;
      PositionEvent(event, positionFor);
    }
  }

  // ---------------------------------------------------------------------
  // Properties of the transitions

  /** Positioning with both edges known leaves the card at rest, padded
      below its baseline, and keeps the press point and the modal flag;
      with an edge missing it changes nothing. */
  lemma PositionedSpec(s: CardState, p: Position)
    ensures var r := Positioned(s, p);
            && (p.top.None? || p.bottom.None? ==> r == s)
            && (p.top.Some? && p.bottom.Some? ==>
                  && !r.isDragging && !r.isResizing
                  && r.lastTranslateY == p.top.value
                  && r.translateY - r.lastTranslateY == CARD_Y_PADDING
                  && r.height + 2.0 * CARD_Y_PADDING == p.bottom.value - p.top.value
                  && r.originalY == s.originalY && r.isModalOpen == s.isModalOpen)
  {
  }

  /** Positioning twice at the same band is positioning once. */
  lemma PositionedIdempotent(s: CardState, p: Position)
    ensures Positioned(Positioned(s, p), p) == Positioned(s, p)
  {
  }

  /** A plain press starts a drag at the pointer and touches nothing else;
      a double click flips the modal flag only, and two of them restore it. */
  lemma DragStartedSpec(s: CardState, detail: int, clientY: real)
    ensures var r := DragStarted(s, detail, clientY);
            && (detail != 2 ==> r.isDragging && r.originalY == clientY &&
                                r.(isDragging := s.isDragging, originalY := s.originalY) == s)
            && (detail == 2 ==> r.isModalOpen == !s.isModalOpen && r.(isModalOpen := s.isModalOpen) == s)
            && DragStarted(DragStarted(s, 2, clientY), 2, clientY) == s
  {
  }

  /** A move while not dragging does nothing and issues no update. While
      dragging, only the drawn offset changes, and a move back to the press
      point draws the card at its baseline. */
  lemma DraggedSpec(s: CardState, event: AgendaEvent, clientY: real, hourAt: real -> Option<int>)
    ensures !s.isDragging ==> Dragged(s, clientY) == s && DragReschedule(s, event, clientY, hourAt).None?
    ensures s.isDragging ==> Dragged(s, clientY).(translateY := s.translateY) == s
    ensures s.isDragging ==> Dragged(s, s.originalY).translateY == s.lastTranslateY
  {
  }

  /** The drawn offset follows the pointer: two moves of one drag are drawn
      as far apart as the pointer moved. */
  lemma DragFollowsPointer(s: CardState, y1: real, y2: real)
    requires s.isDragging
    ensures Dragged(s, y2).translateY - Dragged(s, y1).translateY == y2 - y1
  {
  }

  /** A drag move issues an update exactly when dragging and the mapped hour
      is known and differs from the start hour. The update moves start and
      end by the same whole number of hours, so the event keeps its length,
      and within the day the start takes the mapped hour with its minutes
      and seconds kept. */
  lemma DragRescheduleSpec(s: CardState, event: AgendaEvent, clientY: real, hourAt: real -> Option<int>)
    ensures var r := DragReschedule(s, event, clientY, hourAt);
            var hour := hourAt(DragTarget(s, clientY));
            && (r.Some? <==> s.isDragging && hour.Some? && hour.value != HourOf(event.start))
            && (r.Some? ==>
                  && r.value.start == event.start + (hour.value - HourOf(event.start)) * HOUR
                  && r.value.end == event.end + (hour.value - HourOf(event.start)) * HOUR
                  && r.value.end - r.value.start == event.end - event.start
                  && (0 <= hour.value < 24 ==>
                        HourOf(r.value.start) == hour.value && r.value.start % HOUR == event.start % HOUR))
  {
    var hour := hourAt(DragTarget(s, clientY));
    if s.isDragging && hour.Some? && hour.value != HourOf(event.start) {
      var d := hour.value - HourOf(event.start);
      SetHoursShift(event.start, d);
      SetHoursShift(event.end, -(HourOf(event.start) - hour.value));
      assert HourOf(event.end) - (HourOf(event.start) - hour.value) == HourOf(event.end) + d;
      if 0 <= hour.value < 24 {
        SetHoursWithinDay(event.start, hour.value);
      }
    }
  }

  /** Ending a drag leaves the card not dragging; it does nothing when no
      drag was under way, and otherwise re-positions the card at its band,
      or, with an edge unknown, only clears the drag flag. */
  lemma DragEndedSpec(s: CardState, p: Position)
    ensures !DragEnded(s, p).isDragging
    ensures !s.isDragging ==> DragEnded(s, p) == s
    ensures s.isDragging && p.top.Some? && p.bottom.Some? ==>
              DragEnded(s, p) == Positioned(s, p) &&
              DragEnded(s, p).translateY == p.top.value + CARD_Y_PADDING &&
              DragEnded(s, p).lastTranslateY == p.top.value &&
              DragEnded(s, p).height == p.bottom.value - p.top.value - 2.0 * CARD_Y_PADDING &&
              !DragEnded(s, p).isResizing
    ensures s.isDragging && (p.top.None? || p.bottom.None?) ==>
              DragEnded(s, p) == s.(isDragging := false)
  {
  }

  /** Starting a resize sets the resize flag only and never starts a drag. */
  lemma ResizeStartedSpec(s: CardState)
    ensures ResizeStarted(s).isResizing
    ensures ResizeStarted(s).isDragging == s.isDragging
    ensures ResizeStarted(s).(isResizing := s.isResizing) == s
  {
  }

  /** A resize move does nothing unless resizing; otherwise only the height
      changes, to the pointer's distance below the container top plus the
      slack. */
  lemma ResizedSpec(s: CardState, clientY: real, parentTop: real)
    ensures !s.isResizing ==> Resized(s, clientY, parentTop) == s
    ensures s.isResizing ==> Resized(s, clientY, parentTop).height - RESIZE_SLACK == clientY - parentTop
    ensures Resized(s, clientY, parentTop).(height := s.height) == s
  {
  }

  /** A resize move issues an update exactly when resizing and the mapped
      hour is known and the end hour is not already the next one; the
      update never moves the start, and within the day the end takes the
      next hour on the same day with its minutes and seconds kept. */
  lemma ResizeRescheduleSpec(s: CardState, event: AgendaEvent, parentBottom: real, hourAt: real -> Option<int>)
    ensures var r := ResizeReschedule(s, event, parentBottom, hourAt);
            var hour := hourAt(parentBottom);
            && (r.Some? <==> s.isResizing && hour.Some? && HourOf(event.end) != hour.value + 1)
            && (r.Some? ==> r.value.start == event.start)
            && (r.Some? && 0 <= hour.value + 1 < 24 ==>
                  && HourOf(r.value.end) == hour.value + 1
                  && r.value.end % HOUR == event.end % HOUR
                  && r.value.end - r.value.end % DAY == event.end - event.end % DAY)
  {
    var hour := hourAt(parentBottom);
    if s.isResizing && hour.Some? && 0 <= hour.value + 1 < 24 {
      SetHoursWithinDay(event.end, hour.value + 1);
    }
  }

  /** Ending a resize always clears the resize flag; with both edges known
      the card is re-positioned and at rest. */
  lemma ResizeEndedSpec(s: CardState, p: Position)
    ensures !ResizeEnded(s, p).isResizing
    ensures p.top.None? || p.bottom.None? ==> ResizeEnded(s, p) == s.(isResizing := false)
    ensures p.top.Some? && p.bottom.Some? ==> ResizeEnded(s, p) == Positioned(s, p)
  {
  }

  // ---------------------------------------------------------------------
  // The card on the page's agenda

  /** The page's position mapper, as the card receives it. */
  function PagePosition(slots: seq<Timeslot>, offset: real): (Time, Time) -> Position
  {
    (start: Time, end: Time) =>
      var b := PositionForHours(slots, offset, start, end);
      Position(Some(b.top), Some(b.bottom))
  }

  /** A card positioned on the page's day table (agenda at the top of the
      page), pressed and moved with no vertical displacement, asks the page
      to move its event one hour earlier when the page's lookup is the one
      that includes both band edges. */
  lemma StillDragMovesEarlier(slots: seq<Timeslot>, s: CardState, event: AgendaEvent, clientY: real)
    requires DayTable(slots) && HourOf(event.start) > 0
    ensures var placed := Positioned(s, PagePosition(slots, 0.0)(event.start, event.end));
            var pressed := DragStarted(placed, 1, clientY);
            DragReschedule(pressed, event, clientY, y => HourAt(slots, 0.0, y)) ==
              Some(Reschedule(event.start - HOUR, event.end - HOUR))
  {
    var placed := Positioned(s, PagePosition(slots, 0.0)(event.start, event.end));
    var pressed := DragStarted(placed, 1, clientY);
    var top := PositionForHours(slots, 0.0, event.start, event.end).top;
    assert DragTarget(pressed, clientY) == top;
    RoundTripAsWritten(slots, event.start, event.end);
    DragRescheduleSpec(pressed, event, clientY, y => HourAt(slots, 0.0, y));
  }

  /** The same gesture with the half-open lookup issues no update. */
  lemma StillDragStaysHalfOpen(slots: seq<Timeslot>, s: CardState, event: AgendaEvent, clientY: real)
    requires DayTable(slots)
    ensures var placed := Positioned(s, PagePosition(slots, 0.0)(event.start, event.end));
            var pressed := DragStarted(placed, 1, clientY);
            DragReschedule(pressed, event, clientY, y => HourAtHalfOpen(slots, 0.0, y)).None?
  {
    var placed := Positioned(s, PagePosition(slots, 0.0)(event.start, event.end));
    var pressed := DragStarted(placed, 1, clientY);
    var top := PositionForHours(slots, 0.0, event.start, event.end).top;
    assert DragTarget(pressed, clientY) == top;
    HalfOpenRoundTrip(slots, event.start, event.end);
  }

  /** A card positioned on the page's day table, pressed and moved down by
      exactly the height of its start row, issues no update under the page's
      lookup: the drawn top lands on the shared edge with the next row, which
      the lookup that includes both edges gives to the start row. */
  lemma OneRowDragStaysAsWritten(slots: seq<Timeslot>, s: CardState, event: AgendaEvent, clientY: real)
    requires DayTable(slots) && HourOf(event.start) < 23
    ensures var h := HourOf(event.start);
            var placed := Positioned(s, PagePosition(slots, 0.0)(event.start, event.end));
            var pressed := DragStarted(placed, 1, clientY);
            DragReschedule(pressed, event, clientY + (slots[h].bottom - slots[h].top),
                           y => HourAt(slots, 0.0, y)).None?
  {
    var h := HourOf(event.start);
    var placed := Positioned(s, PagePosition(slots, 0.0)(event.start, event.end));
    var pressed := DragStarted(placed, 1, clientY);
    DayTablePosition(slots, 0.0, event.start, event.end);
    assert slots[h].bottom == slots[h + 1].top;
    assert DragTarget(pressed, clientY + (slots[h].bottom - slots[h].top)) == slots[h + 1].top + 0.0;
    BandTopMapsToPreviousHour(slots, 0.0, h + 1);
  }

  /** The same gesture with the half-open lookup moves the event one hour
      later, start and end alike. */
  lemma OneRowDragShiftsHalfOpen(slots: seq<Timeslot>, s: CardState, event: AgendaEvent, clientY: real)
    requires DayTable(slots) && HourOf(event.start) < 23
    ensures var h := HourOf(event.start);
            var placed := Positioned(s, PagePosition(slots, 0.0)(event.start, event.end));
            var pressed := DragStarted(placed, 1, clientY);
            var r := DragReschedule(pressed, event, clientY + (slots[h].bottom - slots[h].top),
                                    y => HourAtHalfOpen(slots, 0.0, y));
            && r == Some(Reschedule(SetHours(event.start, h + 1), SetHours(event.end, HourOf(event.end) + 1)))
            && r.value.start == event.start + HOUR
            && r.value.end == event.end + HOUR
  {
    var h := HourOf(event.start);
    var placed := Positioned(s, PagePosition(slots, 0.0)(event.start, event.end));
    var pressed := DragStarted(placed, 1, clientY);
    var clientY' := clientY + (slots[h].bottom - slots[h].top);
    DayTablePosition(slots, 0.0, event.start, event.end);
    assert slots[h].bottom == slots[h + 1].top;
    assert DragTarget(pressed, clientY') == slots[h + 1].top;
    HalfOpenMapsToOwnHour(slots, 0.0, h + 1, slots[h + 1].top);
    DragRescheduleSpec(pressed, event, clientY', y => HourAtHalfOpen(slots, 0.0, y));
  }
}
