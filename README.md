# Planner agenda: a Dafny model

The planner page lays the events of one day out on a vertical agenda with
one row per hour. Each event is a card. Dragging a card moves the event to
another hour; resizing it moves the event's end. After every
re-measurement of the hour rows, a width-positioning pass gives each card a
`left` and a `right` inset, so that events active in the same hour sit side
by side. Three smaller components (a task card, a draggable rectangle and a
draggable circle) carry the same drag-onto-a-baseline state machine.

The model has these modules:

- `PlannerTypes` (`types.dfy`) holds the shared types:
  - an agenda event and a timeslot;
  - time as integer seconds since the day's midnight, with hour of day
    (`getHours`) and hour replacement (`setHours`, which rolls an
    out-of-range hour into a neighbouring day);
  - whole minutes between two times;
  - the identifier order used as tiebreak.
- `Ranking` (`ranking.dfy`) is the stable sort the pass uses twice. It
  orders by rank descending, with ties broken by identifier ascending.
- `Packing` (`packing.dfy`) is `calculateWidthPosition`. It is a
  specification function `Pack` built from one function per stage:
  - sort by duration;
  - the events active in each timeslot;
  - conflict counts and their sort;
  - the layout walk, including the newline branch and its two exceptions;
  - the write-back.

  The pass itself is the method `CalculateWidthPosition`. It has the
  source's `forEach` as a loop and the inner `forEach` as the method
  `FindShortestRight`, and it is proved equal to `Pack`. Insets are integer
  hundredths of a percent (10000 is 100%).
- `PackingExamples` and `SeedExample` work the pass out on concrete inputs:
  - two overlapping events;
  - two back-to-back events;
  - an empty timeslot table;
  - two events apart from each other, neither active in any timeslot;
  - the five events the page starts with.

  `OverlapExample` (`overlap_example.dfy`) works out three events for which
  two events active at the same time get overlapping spans.
- `Coordinates` (`coordinates.dfy`) covers:
  - the page's pointer-to-hour lookup (`calculateHourBasedOnPosition`);
  - its hour-to-pixel mapping (`calculatePositionBaseOnHour`);
  - `handleUpdateEvent`;
  - the hour-row table of the page, as a predicate.
- `EventCardModel` (`event_card.dfy`) is the event card. Its state record
  is a class whose methods are the pointer handlers. Each handler is
  proved to have the effect of a transition function on the record. The
  drag and resize handlers also return the `handleUpdateEvent` call they
  issue, if any. The page's two mappers are parameters.
- `TaskCardModel`, `RectangleModel` and `CircleModel` are the three smaller
  components, built the same way. In the rectangle and the circle, the
  listeners attached to the window are flags in the state. A `Dispatch`
  function delivers one mouse event to the handlers it reaches, and `Run`
  folds a sequence of them.

Inputs from the browser are parameters:
- the measured timeslot bands;
- the agenda's top offset;
- pointer coordinates;
- the bounding rectangle of a card's container.

The layout the page computes for its five seed events is proved in
`SeedExample.SeedLayout`:
- events 1, 2 and 3 take a third of the width each;
- event 4 starts at 99.99% and is 0.01% wide;
- event 5, after the line wraps, takes the full width.

## Model

| member | source | states |
|---|---|---|
| `PlannerTypes.HourOf` | src/components/EventCard.tsx:105 | the hour of day of a time is in 0..23 |
| `PlannerTypes.SetHours` | src/components/EventCard.tsx:106-109 | defined by its body: `setHours`, with an out-of-range hour rolling into a neighbouring day. Characterised by `PlannerTypes.SetHoursShift` and `PlannerTypes.SetHoursWithinDay` |
| `PlannerTypes.SetHoursShift` | src/components/EventCard.tsx:106-109 | setting the hour to the current hour plus d moves the time by exactly d hours, for every d, because an out-of-range hour rolls over |
| `PlannerTypes.SetHoursWithinDay` | src/components/EventCard.tsx:108 | setting an hour in 0..23 yields that hour and keeps the day, the minutes and the seconds |
| `PlannerTypes.DifferenceInMinutes` | src/pages/index.tsx:140 | the result is the whole minutes between two times, truncated toward zero, on both sides of zero |
| `PlannerTypes.IdLessTotal` | src/pages/index.tsx:148 | two different identifiers are always ordered one way or the other by the tiebreak |
| `PlannerTypes.IdLessTransitive` | src/pages/index.tsx:148 | the identifier tiebreak is transitive |
| `PlannerTypes.IdLessAsymmetric` | src/pages/index.tsx:148 | the identifier tiebreak is asymmetric |
| `Ranking.NotBeforeTransitive` | src/pages/index.tsx:143-149 | the comparator given to the sort is a strict weak order: its "not before" relation is transitive |
| `Ranking.Insert` | src/pages/index.tsx:143-149 | inserting into the sorted list adds exactly the element, as a multiset |
| `Ranking.SortByRank` | src/pages/index.tsx:143-149 | the sort is a permutation of its input, of the same length |
| `Ranking.InsertSorted` | src/pages/index.tsx:143-149 | inserting into a sorted list keeps it sorted |
| `Ranking.SortByRankSorted` | src/pages/index.tsx:143-149 | the sort's result is ordered: rank descending, identifier ascending within a rank |
| `Ranking.SortByRankKeepsOrdered` | src/pages/index.tsx:143-149 | an already ordered list is returned unchanged |
| `Ranking.SortByRankIdempotent` | src/pages/index.tsx:143-149 | sorting twice is sorting once |
| `Ranking.SortByRankStrict` | src/pages/index.tsx:179-185 | with distinct identifiers the order is strict: rank descending, identifier strictly ascending within a rank |
| `Ranking.PermutationKeepsDistinctIds` | src/pages/index.tsx:137-149 | a permutation of a list with distinct identifiers has distinct identifiers |
| `Packing.EventsSortedByDuration` | src/pages/index.tsx:137-149 | defined by its body: each event ranked by its duration in minutes, then sorted. Characterised by `Packing.SortedByDurationSpec` |
| `Packing.SortedByDurationSpec` | src/pages/index.tsx:137-149 | eventsSortedByDuration is a permutation of the events. Each entry carries its own duration in minutes, longest first, with equal durations in identifier order |
| `Packing.IsActive` | src/pages/index.tsx:141-157 | defined by its body: an event is active at a date from its start up to one second before its end. Characterised by `Packing.NotActiveAtEnd` and `Packing.ActiveAtSpec` |
| `Packing.NotActiveAtEnd` | src/pages/index.tsx:141 | because the comparison interval ends one second early, an event ending at an hour and one starting at that hour are never active at the same instant |
| `Packing.ActiveAt` | src/pages/index.tsx:155-157 | defined by its body: the filter of the sorted events active at a date. Characterised by `Packing.ActiveAtSpec` |
| `Packing.ActiveAtSpec` | src/pages/index.tsx:155-157 | the filter keeps exactly the events active at the slot's date, and no entry twice |
| `Packing.SlotsWithEvents` | src/pages/index.tsx:153-164 | defined by its body: `timeslotWithEvents`. Characterised by `Packing.SlotsWithEventsSpec` |
| `Packing.SlotsWithEventsSpec` | src/pages/index.tsx:153-164 | every kept timeslot carries exactly its own active events, and at least one; no timeslot with an active event is dropped |
| `Packing.MaxOccupancy` | src/pages/index.tsx:169-174 | defined by its body: the reduce over the kept timeslots. Characterised by `Packing.MaxOccupancySpec` |
| `Packing.MaxOccupancySpec` | src/pages/index.tsx:169-174 | the reduce yields the size of the fullest timeslot holding the event, and 0 when none holds it |
| `Packing.CountRanked` | src/pages/index.tsx:167-178 | defined by its body: each event paired with its conflict count. Characterised through `Packing.ConflictCount` and `Packing.ConflictCountMeaning` |
| `Packing.EventsSortedByConflictCount` | src/pages/index.tsx:179-185 | defined by its body: the counted events sorted by count, identifier as tiebreak. Its order and permutation come from `Ranking.SortByRankSorted` and `Ranking.SortByRank`; `Packing.SortedIdsCounted` shows every sorted event is in it |
| `Packing.SortedIdsCounted` | src/pages/index.tsx:253-259 | every event of the duration-sorted list has an entry in the conflict-count list, so the lookup of line 253 always finds one |
| `Packing.FindCount` | src/pages/index.tsx:253-259 | defined by its body: the `find` of the conflict count by identifier. Characterised by `Packing.FindCountSpec` |
| `Packing.FindCountSpec` | src/pages/index.tsx:253-259 | the conflict-count lookup fails exactly when no entry has the identifier, and otherwise yields that entry's count |
| `Packing.ConflictCount` | src/pages/index.tsx:167-177 | defined by its body: the size of the fullest timeslot holding the event, less one. Characterised by `Packing.MaxOccupancySpec` and `Packing.ConflictCountMeaning` |
| `Packing.ConflictCountMeaning` | src/pages/index.tsx:167-178 | for an event of the list (identifiers unique), maxConflictCount is the largest number of other events active with it in one timeslot. It is -1 exactly when the event is active in no timeslot |
| `Packing.Others` | src/pages/index.tsx:207-211 | defined by its body: the inner filter on identifier. Characterised by `Packing.OthersSpec` |
| `Packing.OthersSpec` | src/pages/index.tsx:207-211 | the inner filter keeps exactly the slot's events with another identifier |
| `Packing.ConflictingFlat` | src/pages/index.tsx:201-213 | defined by its body: the flattened co-occupants. Characterised by `Packing.ConflictingFlatSpec` |
| `Packing.ConflictingFlatSpec` | src/pages/index.tsx:201-213 | the flattened list holds exactly the other events that share a timeslot with the event |
| `Packing.Dedupe` | src/pages/index.tsx:214-217 | defined by its body: the deduplicating reduce. Characterised by `Packing.DedupeSpec` |
| `Packing.DedupeSpec` | src/pages/index.tsx:214-217 | the reduce keeps every element of its input and adds no duplicate |
| `Packing.ConflictingEvents` | src/pages/index.tsx:201-217 | defined by its body: `conflictingEvents`. Characterised by `Packing.ConflictingEventsSpec` |
| `Packing.ConflictingEventsSpec` | src/pages/index.tsx:201-217 | conflictingEvents lists every event sharing a timeslot with the event, other than itself, exactly once |
| `Packing.ShortestRight` | src/pages/index.tsx:233-245 | defined by its body, with the assignment of line 235 as written. Characterised by `Packing.ShortestRightSpec` and computed by the loop `Packing.FindShortestRight` |
| `Packing.ShortestRightSpec` | src/pages/index.tsx:233-245 | the loop throws exactly when there is a conflicting event and either no update yet or a conflicting event with an empty identifier. Otherwise it yields min(999%, updates[0].right) and renames updates[0] to the last conflicting event |
| `Packing.NewlineStart` | src/pages/index.tsx:199-250 | defined by its body: the newline branch. Characterised by `Packing.NewlineStartSpec` |
| `Packing.NewlineStartSpec` | src/pages/index.tsx:199-251 | the newline branch throws in exactly those cases. Otherwise it restarts left at 100% minus that right inset, clears newline, and sets conflictReducer to the number of distinct conflicting events |
| `Packing.ShortestRightById` | src/pages/index.tsx:235 | defined by its body: the lookup with the identifiers compared. Characterised by `Packing.ShortestRightByIdSpec` |
| `Packing.ShortestRightByIdSpec` | src/pages/index.tsx:235 | with the lookup compared instead of assigned: it throws exactly when a conflicting event has no update, and otherwise yields the smallest right inset among the conflicting events' own updates, or 999% |
| `Packing.RoundedQuotient` | src/pages/index.tsx:274-276 | the width is the integer nearest to the quotient, in hundredths, halves rounded up, for either sign of divisor |
| `Packing.Place` | src/pages/index.tsx:261-299 | defined by its body: one placement. Characterised by `Packing.PlaceSpec` and computed by `Packing.PlaceEvent` |
| `Packing.PlaceSpec` | src/pages/index.tsx:261-299 | a placement pushes exactly one update for the event, with a non-negative right inset and a left inset of at most 100%, and leaves the cursor left of 100%. A conflict-free event gets 0/0 and resets the cursor |
| `Packing.Step` | src/pages/index.tsx:198-300 | defined by its body: one iteration of the forEach. Computed by `Packing.StepEvent`; its errors are characterised by `Packing.WalkErrorCause` |
| `Packing.FindUpdate` | src/pages/index.tsx:307-310 | defined by its body: the write-back's `find` by identifier. Characterised by `Packing.FindUpdateSpec` |
| `Packing.WalkPrefix` | src/pages/index.tsx:192-300 | defined by its body: the forEach over the first n sorted events. Characterised by `Packing.WalkShape`, `Packing.WalkErrorPersists` and `Packing.WalkErrorCause` |
| `Packing.FindUpdateSpec` | src/pages/index.tsx:307-310 | the write-back lookup yields the first update carrying the identifier, and fails only when none carries it |
| `Packing.WriteBack` | src/pages/index.tsx:303-312 | defined by its body: the final `setEvents`. Characterised by `Packing.WriteBackSpec` |
| `Packing.WriteBackSpec` | src/pages/index.tsx:303-312 | the write-back keeps length, order and every field but the insets. An event takes the insets of the first update for its identifier, and 0/0 when there is none |
| `Packing.Pack` | src/pages/index.tsx:134-313 | defined by its body: the whole pass as a value. Computed by `Packing.CalculateWidthPosition` and characterised by `Packing.PackShape`, `Packing.PackErrors` and `Packing.PackSucceeds`. `OverlapExample.ConcurrentSpansOverlap` shows that it can give events active at the same time overlapping spans |
| `Packing.WalkErrorPersists` | src/pages/index.tsx:236-240 | once the walk has thrown, the pass ends with that exception |
| `Packing.WalkShape` | src/pages/index.tsx:192-300 | after n events the walk has pushed n updates in sorted order. Every update but the first still carries its own event's identifier. Every right inset is non-negative, every left inset at most 100%, and the cursor stays left of 100% |
| `Packing.WalkErrorCause` | src/pages/index.tsx:236-240 | when every sorted event has a conflict count, the walk can throw only in the newline branch, and only for a conflicting event with an empty identifier |
| `Packing.PackErrors` | src/pages/index.tsx:253-259 | the pass never throws "Unable to find event conflict count". It throws only the newline exception, and only when some event has an empty identifier |
| `Packing.PackSucceeds` | src/pages/index.tsx:134-313 | with non-empty identifiers the pass always produces a new event list |
| `Packing.PackShape` | src/pages/index.tsx:303-312 | the new list has the events in the same order, with only the insets changed, every right inset non-negative and every left inset at most 100% |
| `Packing.ApartCountZero` | src/pages/index.tsx:167-178 | an event that is active in some timeslot and shares none has conflict count 0 |
| `Packing.ApartWalk` | src/pages/index.tsx:262-272 | when every count is 0, every event is pushed with 0/0 and the cursor stays at 0, so the newline branch never runs |
| `Packing.ApartFullWidth` | src/pages/index.tsx:188-190 | events that never share a timeslot, each active in one, all take the full width: the pass succeeds with every inset 0 |
| `PackingExamples.ApartUncoveredOffscreen` | src/pages/index.tsx:273-297 | two half-hour events, [2:15,2:45) and [3:15,3:45), between the rows 2:00 to 5:00, share no timeslot but are active in none: the pass gives the first 0/0 and the second -899%/0, not the full width |
| `Packing.WriteBackZero` | src/pages/index.tsx:302-312 | updates that all carry 0/0 write 0/0 into every event and change nothing else |
| `Packing.FindShortestRight` | src/pages/index.tsx:233-245 | the inner loop computes what ShortestRight specifies |
| `Packing.StepEvent` | src/pages/index.tsx:198-300 | one iteration of the loop body computes what Step specifies: the newline branch, the conflict-count lookup and the push, or the exception one of them throws |
| `Packing.PlaceEvent` | src/pages/index.tsx:261-299 | the placement code computes Place: the update pushed and the new cursor |
| `Packing.CalculateWidthPosition` | src/pages/index.tsx:134-313 | the pass, as a loop over the duration-sorted events, returns exactly Pack: the new event list or the exception |
| `PackingExamples.OverlapSplitsInHalves` | src/pages/index.tsx:134-313 | two events sharing an hour split the width: the longer takes the left half, the shorter the right half |
| `PackingExamples.BackToBackFullWidth` | src/pages/index.tsx:141 | an event ending at 4:00 and one starting at 4:00 both take the full width |
| `OverlapExample.ConcurrentSpansOverlap` | src/pages/index.tsx:134-313 | for [0:00,2:00), [1:00,3:00) and [2:00,3:00) over the slots 0:00, 1:00 and 2:00, the pass gives 0/0, 0/50% and 50%/0: the first two events are both active at 1:00, yet their spans overlap |
| `OverlapExample.WalkC` | src/pages/index.tsx:198-300 | the walk of that example: the two longest events fill a line with halves, and the newline lookup for the third reads and renames the first event's update |
| `PackingExamples.EmptyTableShiftsOffscreen` | src/pages/index.tsx:274-297 | with no timeslots every count is -1 and every divisor 0. The first event gets 0/0, and the newline branch restarts the second at 100% - 999% = -899% |
| `PackingExamples.NewlineLookupRenames` | src/pages/index.tsx:235 | as written, the newline lookup for an event conflicting only with event 2 reads event 1's right inset and renames event 1's update to 2. In the model, whose update list does not share the renamed object with the events, the write-back then gives event 1 the insets 0/0. The compared lookup reads event 2's own inset |
| `PackingExamples.WriteBackAligned` | src/pages/index.tsx:303-312 | when the i-th update belongs to the i-th event (identifiers distinct), each event takes its own update's insets |
| `SeedExample.CountedSeed` | src/pages/index.tsx:35-76 | the seed events' conflict counts, sorted: 2, 2, 2, 1, 0 |
| `SeedExample.WalkSeed` | src/pages/index.tsx:192-300 | the walk over the seed events: the three longest take thirds, the fourth wraps the line, the fifth takes the full width |
| `SeedExample.SeedLayout` | src/pages/index.tsx:35-76 | the pass over the seed events over the hours 1:00-9:00 gives insets 0/66.67, 33.33/33.34, 66.66/0.01, 99.99/0 and 0/0 |
| `Coordinates.Find` | src/pages/index.tsx:107-110 | defined by its body: `Array.prototype.find` over the timeslots. Characterised by `Coordinates.FindSpec` |
| `Coordinates.FindSpec` | src/pages/index.tsx:107-110 | find yields nothing exactly when no timeslot matches, and otherwise the first one that does |
| `Coordinates.HourAt` | src/pages/index.tsx:105-113 | defined by its body: `hourAt`. Characterised by `Coordinates.HourAtSpec` |
| `Coordinates.HourAtSpec` | src/pages/index.tsx:105-113 | the lookup yields no hour exactly when no band, edges included, holds the pointer relative to the agenda. Otherwise it yields the hour of the first such band |
| `Coordinates.BandTopMapsToPreviousHour` | src/pages/index.tsx:109 | with contiguous bands, a pointer exactly on a band's top edge maps to the hour of the band above |
| `Coordinates.TopEdgeExample` | src/pages/index.tsx:109 | bands hour 1 over [0,80] and hour 2 over [80,160]: pixel 80 maps to hour 1 |
| `Coordinates.HalfOpenMapsToOwnHour` | src/pages/index.tsx:105-113 | with half-open contiguous bands, every pointer in band k, its top edge included, maps to band k's hour |
| `Coordinates.HalfOpenOutside` | src/pages/index.tsx:112 | the half-open lookup still yields no hour outside every band |
| `Coordinates.ContiguousOrdered` | src/pages/index.tsx:82-103 | in contiguous bands each band lies above the top of every later one |
| `Coordinates.SlotOfHour` | src/pages/index.tsx:116-121 | defined by its body: the timeslot of an hour. Characterised by `Coordinates.SlotOfHourSpec` |
| `Coordinates.SlotOfHourSpec` | src/pages/index.tsx:116-121 | the hour lookup yields the first timeslot of that hour, and nothing exactly when there is none |
| `Coordinates.PositionForHours` | src/pages/index.tsx:115-132 | defined by its body: the pixel band of an event. Characterised by `Coordinates.PositionForHoursSpec` |
| `Coordinates.PositionForHoursSpec` | src/pages/index.tsx:115-132 | the fallback (the offset itself for both edges) is taken exactly when the start or end hour has no timeslot. Otherwise top and bottom are the tops of those slots, made relative to the agenda |
| `Coordinates.DayTablePosition` | src/pages/index.tsx:115-132 | on a 24-row day table a card spans from the top of its start hour's row to the top of its end hour's row |
| `Coordinates.HalfOpenRoundTrip` | src/pages/index.tsx:105-132 | hour to pixel and back with half-open bands returns the start hour |
| `Coordinates.RoundTripAsWritten` | src/pages/index.tsx:105-132 | hour to pixel and back with the lookup as written returns the hour before, for every start hour after midnight |
| `Coordinates.UpdateEvent` | src/pages/index.tsx:315-327 | defined by its body: `handleUpdateEvent`. Characterised by `Coordinates.UpdateEventSpec`, `Coordinates.UpdateEventLastWins` and `Coordinates.UpdateEventMissing` |
| `Coordinates.UpdateEventSpec` | src/pages/index.tsx:315-327 | the update keeps length, order and every field but start and end. It changes them exactly for the events carrying the identifier |
| `Coordinates.UpdateEventLastWins` | src/pages/index.tsx:315-327 | two updates for the same identifier amount to the second |
| `Coordinates.UpdateEventMissing` | src/pages/index.tsx:315-327 | an identifier no event carries leaves the list unchanged |
| `EventCardModel.Positioned` | src/components/EventCard.tsx:61-81 | defined by its body: `positionEvent`. Characterised by `EventCardModel.PositionedSpec` and `EventCardModel.PositionedIdempotent` |
| `EventCardModel.Toggled` | src/components/EventCard.tsx:181-184 | defined by its body: the double-click handler flips the modal flag only |
| `EventCardModel.DragStarted` | src/components/EventCard.tsx:83-94 | defined by its body. Characterised by `EventCardModel.DragStartedSpec` |
| `EventCardModel.Dragged` | src/components/EventCard.tsx:96-102 | defined by its body. Characterised by `EventCardModel.DraggedSpec` and `EventCardModel.DragFollowsPointer` |
| `EventCardModel.DragReschedule` | src/components/EventCard.tsx:102-112 | defined by its body. Characterised by `EventCardModel.DragRescheduleSpec` |
| `EventCardModel.DragEnded` | src/components/EventCard.tsx:120-130 | defined by its body. Characterised by `EventCardModel.DragEndedSpec` |
| `EventCardModel.ResizeStarted` | src/components/EventCard.tsx:132-140 | defined by its body. Characterised by `EventCardModel.ResizeStartedSpec` |
| `EventCardModel.Resized` | src/components/EventCard.tsx:142-160 | defined by its body. Characterised by `EventCardModel.ResizedSpec` |
| `EventCardModel.ResizeReschedule` | src/components/EventCard.tsx:162-168 | defined by its body. Characterised by `EventCardModel.ResizeRescheduleSpec` |
| `EventCardModel.ResizeEnded` | src/components/EventCard.tsx:171-179 | defined by its body. Characterised by `EventCardModel.ResizeEndedSpec` |
| `EventCardModel.PositionedSpec` | src/components/EventCard.tsx:61-81 | with both edges known the card is at rest, drawn 3 px below its baseline, which is the band's top, and 6 px shorter than the band; the press point and the modal flag are kept. With an edge missing nothing changes |
| `EventCardModel.PositionedIdempotent` | src/components/EventCard.tsx:61-81 | positioning twice at the same band is positioning once |
| `EventCardModel.DragStartedSpec` | src/components/EventCard.tsx:83-94 | a plain press starts a drag at the pointer and touches nothing else. A double click only flips the modal, and two of them restore it |
| `EventCardModel.DraggedSpec` | src/components/EventCard.tsx:96-118 | a move while not dragging changes nothing and issues no update. While dragging only the drawn offset changes, and at the press point it is the baseline |
| `EventCardModel.DragFollowsPointer` | src/components/EventCard.tsx:102 | two moves of one drag are drawn as far apart as the pointer moved |
| `EventCardModel.DragRescheduleSpec` | src/components/EventCard.tsx:102-112 | an update is issued exactly when dragging and the mapped hour is known and differs from the start hour. It shifts start and end by the same number of hours, so the duration is kept, and within the day the start takes the mapped hour with its minutes kept |
| `EventCardModel.DragEndedSpec` | src/components/EventCard.tsx:120-130 | ending a drag leaves the card not dragging. It does nothing when no drag was under way. Otherwise, with both edges known, the result is `Positioned`, the card at rest at its band (height, cleared resize flag and kept fields as `PositionedSpec` states); with an edge unknown only the drag flag is cleared |
| `EventCardModel.ResizeStartedSpec` | src/components/EventCard.tsx:132-140 | starting a resize sets the resize flag only and never starts a drag |
| `EventCardModel.ResizedSpec` | src/components/EventCard.tsx:142-160 | a resize move does nothing unless resizing; otherwise only the height changes, to the pointer's distance below the container top plus 15 px |
| `EventCardModel.ResizeRescheduleSpec` | src/components/EventCard.tsx:162-168 | an update is issued exactly when resizing and the mapped hour is known and the end hour is not already the next one. The start never moves, and within the day the end takes the next hour, same day and minutes |
| `EventCardModel.ResizeEndedSpec` | src/components/EventCard.tsx:171-179 | ending a resize always clears the flag, and with both edges known re-positions the card |
| `EventCardModel.StillDragMovesEarlier` | src/components/EventCard.tsx:74-75 | as written, on the page's day table a card pressed and moved with no vertical displacement asks the page to move its event one hour earlier |
| `EventCardModel.StillDragStaysHalfOpen` | src/components/EventCard.tsx:96-112 | with the half-open lookup the same gesture issues no update |
| `EventCardModel.OneRowDragStaysAsWritten` | src/components/EventCard.tsx:96-112 | as written, on the page's day table a card dragged down by exactly its start row's height issues no update: the drawn top lands on the next row's top edge, which the lookup gives to the start row |
| `EventCardModel.OneRowDragShiftsHalfOpen` | src/components/EventCard.tsx:96-112 | with the half-open lookup the same drag moves start and end one hour later, keeping the duration |
| `EventCardModel.EventCard.constructor` | src/components/EventCard.tsx:40-54 | the card starts in the initial state |
| `EventCardModel.EventCard.PositionEvent` | src/components/EventCard.tsx:61-81 | the handler's new state is Positioned of the old one at the band of the event's hours |
| `EventCardModel.EventCard.HandleDoubleClick` | src/components/EventCard.tsx:181-184 | the new state is the old one with the modal flag flipped |
| `EventCardModel.EventCard.HandleDragStart` | src/components/EventCard.tsx:83-94 | the new state is DragStarted of the old one |
| `EventCardModel.EventCard.HandleDrag` | src/components/EventCard.tsx:96-118 | the new state is Dragged of the old one; the update returned is DragReschedule of the old state |
| `EventCardModel.EventCard.HandleDragEnd` | src/components/EventCard.tsx:120-130 | the new state is DragEnded of the old one |
| `EventCardModel.EventCard.HandleResizeStart` | src/components/EventCard.tsx:132-140 | the new state is ResizeStarted of the old one |
| `EventCardModel.EventCard.HandleResize` | src/components/EventCard.tsx:142-169 | the new state is Resized of the old one; the update returned is ResizeReschedule of the old state |
| `EventCardModel.EventCard.HandleResizeEnd` | src/components/EventCard.tsx:171-179 | the new state is ResizeEnded of the old one |
| `TaskCardModel.DragStarted` | src/components/TaskCard.tsx:30-37 | defined by its body. Characterised by `TaskCardModel.DragStartedSpec` |
| `TaskCardModel.Dragged` | src/components/TaskCard.tsx:39-49 | defined by its body. Characterised by `TaskCardModel.DraggedSpec` |
| `TaskCardModel.DragEnded` | src/components/TaskCard.tsx:51-58 | defined by its body. Characterised by `TaskCardModel.DragEndedSpec` |
| `TaskCardModel.ResizeStarted` | src/components/TaskCard.tsx:60-68 | defined by its body. Characterised by `TaskCardModel.ResizeSpec` |
| `TaskCardModel.Resized` | src/components/TaskCard.tsx:70-89 | defined by its body. Characterised by `TaskCardModel.ResizeSpec` |
| `TaskCardModel.ResizeEnded` | src/components/TaskCard.tsx:91-99 | defined by its body. Characterised by `TaskCardModel.ResizeSpec` |
| `TaskCardModel.InitialAtRest` | src/components/TaskCard.tsx:18-28 | the initial card is at rest, neither dragged nor resized, 75 px tall |
| `TaskCardModel.DragStartedSpec` | src/components/TaskCard.tsx:30-37 | a press records the pointer and starts a drag, nothing else |
| `TaskCardModel.DraggedSpec` | src/components/TaskCard.tsx:39-49 | a move while not dragging changes nothing; while dragging only the drawn offset changes, to the pointer's displacement plus the baseline |
| `TaskCardModel.DragEndedSpec` | src/components/TaskCard.tsx:51-58 | ending a drag, whether or not one is under way, saves the drawn offset as the baseline; doing it twice is doing it once |
| `TaskCardModel.ResizeSpec` | src/components/TaskCard.tsx:60-99 | resizing changes only the height, only while resizing, to the pointer's distance below the container top plus 15 px. Start and end change only the flag |
| `TaskCardModel.RunKeepsAtRest` | src/components/TaskCard.tsx:30-99 | whatever handlers run, in whatever order, a card that is not dragged is drawn at its baseline |
| `TaskCardModel.ReachableAtRest` | src/components/TaskCard.tsx:18-99 | every state reachable from the initial one is at rest when not dragged |
| `TaskCardModel.DragAccumulates` | src/components/TaskCard.tsx:30-58 | a press, a move and a release add the pointer's displacement to the baseline |
| `TaskCardModel.TaskCard.constructor` | src/components/TaskCard.tsx:18-28 | the card starts in the initial state, which is at rest |
| `TaskCardModel.TaskCard.HandleDragStart` | src/components/TaskCard.tsx:30-37 | the handler keeps the card valid, and its new state is DragStarted of the old one |
| `TaskCardModel.TaskCard.HandleResizeStart` | src/components/TaskCard.tsx:60-68 | the handler keeps the card valid, and its new state is ResizeStarted of the old one |
| `TaskCardModel.TaskCard.HandleDrag` | src/components/TaskCard.tsx:39-49 | the handler keeps the card valid, and its new state is Dragged of the old one |
| `TaskCardModel.TaskCard.HandleDragEnd` | src/components/TaskCard.tsx:51-58 | the handler keeps the card valid, and its new state is DragEnded of the old one |
| `TaskCardModel.TaskCard.HandleResize` | src/components/TaskCard.tsx:70-89 | the handler keeps the card valid, and its new state is Resized of the old one |
| `TaskCardModel.TaskCard.HandleResizeEnd` | src/components/TaskCard.tsx:91-99 | the handler keeps the card valid, and its new state is ResizeEnded of the old one |
| `RectangleModel.DragStarted` | src/components/DraggableRectangle.tsx:25-33 | defined by its body. Characterised by `RectangleModel.DragStartedSpec` |
| `RectangleModel.Dragged` | src/components/DraggableRectangle.tsx:35-40 | defined by its body. Characterised by `RectangleModel.DraggedSpec` |
| `RectangleModel.DragEnded` | src/components/DraggableRectangle.tsx:42-50 | defined by its body. Characterised by `RectangleModel.DragEndedSpec` |
| `RectangleModel.ResizeStarted` | src/components/DraggableRectangle.tsx:52-64 | defined by its body. Characterised by `RectangleModel.ResizeSpec` |
| `RectangleModel.Resized` | src/components/DraggableRectangle.tsx:66-72 | defined by its body. Characterised by `RectangleModel.ResizeSpec` |
| `RectangleModel.ResizeEnded` | src/components/DraggableRectangle.tsx:74-85 | defined by its body. Characterised by `RectangleModel.ResizeSpec` |
| `RectangleModel.DragStartedSpec` | src/components/DraggableRectangle.tsx:25-33 | a press starts a drag at the pointer and attaches both drag listeners, touching nothing else |
| `RectangleModel.DraggedSpec` | src/components/DraggableRectangle.tsx:35-40 | a move draws the rectangle at the pointer's displacement on top of the baseline, whatever the flags |
| `RectangleModel.DragEndedSpec` | src/components/DraggableRectangle.tsx:42-50 | ending a drag detaches the listeners and saves the offset as the baseline. Ending it twice is ending it once, so the rectangle's own handler and the window's can both run |
| `RectangleModel.ResizeSpec` | src/components/DraggableRectangle.tsx:52-85 | a resize sets the height to the pointer position itself. Start attaches the resize listeners without starting a drag, and end detaches them and keeps the height |
| `RectangleModel.Dispatch` | src/components/DraggableRectangle.tsx:89-118 | defined by its body: the handlers a mouse event reaches, in bubbling order. Characterised by `RectangleModel.DispatchKeepsValid` |
| `RectangleModel.DispatchKeepsValid` | src/components/DraggableRectangle.tsx:25-118 | after any mouse event, each pair of window listeners is attached exactly while its gesture is under way, and at rest the rectangle is at its baseline |
| `RectangleModel.ReachableValid` | src/components/DraggableRectangle.tsx:5-118 | every state any mouse sequence leads to is valid |
| `RectangleModel.DragAccumulates` | src/components/DraggableRectangle.tsx:25-50 | a press, a move and a release on the rectangle move its baseline by the pointer's displacement |
| `RectangleModel.DraggableRectangle.constructor` | src/components/DraggableRectangle.tsx:5-23 | the rectangle starts in the initial state, which is valid |
| `RectangleModel.DraggableRectangle.HandleDragStart` | src/components/DraggableRectangle.tsx:25-33 | the new state is DragStarted of the old one |
| `RectangleModel.DraggableRectangle.HandleDrag` | src/components/DraggableRectangle.tsx:35-40 | the new state is Dragged of the old one |
| `RectangleModel.DraggableRectangle.HandleDragEnd` | src/components/DraggableRectangle.tsx:42-50 | the new state is DragEnded of the old one |
| `RectangleModel.DraggableRectangle.HandleResizeStart` | src/components/DraggableRectangle.tsx:52-64 | the new state is ResizeStarted of the old one |
| `RectangleModel.DraggableRectangle.HandleResize` | src/components/DraggableRectangle.tsx:66-72 | the new state is Resized of the old one |
| `RectangleModel.DraggableRectangle.HandleResizeEnd` | src/components/DraggableRectangle.tsx:74-85 | the new state is ResizeEnded of the old one |
| `RectangleModel.DraggableRectangle.OnMouse` | src/components/DraggableRectangle.tsx:89-118 | delivering a mouse event to the handlers it reaches keeps the rectangle valid, with the new state Dispatch of the old one |
| `RectangleModel.DraggableRectangle.WindowRelease` | src/components/DraggableRectangle.tsx:31-32 | the window's release listeners that are attached run |
| `CircleModel.DragStarted` | src/components/DraggableCircle.tsx:16-25 | defined by its body. Characterised by `CircleModel.DragStartedSpec` |
| `CircleModel.Dragged` | src/components/DraggableCircle.tsx:27-33 | defined by its body. Characterised by `CircleModel.DraggedSpec` |
| `CircleModel.DragEnded` | src/components/DraggableCircle.tsx:35-44 | defined by its body. Characterised by `CircleModel.DragEndedSpec` |
| `CircleModel.DragStartedSpec` | src/components/DraggableCircle.tsx:16-25 | a press records both coordinates and attaches the listeners, touching nothing else |
| `CircleModel.DraggedSpec` | src/components/DraggableCircle.tsx:27-33 | each axis follows its own pointer coordinate, independently of the other |
| `CircleModel.DragEndedSpec` | src/components/DraggableCircle.tsx:35-44 | ending a drag detaches the listeners and saves both offsets; a second end changes nothing |
| `CircleModel.Dispatch` | src/components/DraggableCircle.tsx:16-49 | defined by its body: the handlers a mouse event reaches. Characterised by `CircleModel.ReachableValid` and `CircleModel.GestureEffect` |
| `CircleModel.ReachableValid` | src/components/DraggableCircle.tsx:4-49 | in every reachable state the listeners match the drag flag, and at rest the circle is at its baseline on both axes |
| `CircleModel.GestureEffect` | src/components/DraggableCircle.tsx:16-44 | a press, a move and a release translate the circle by the pointer's displacement on each axis |
| `CircleModel.ReturnLeavesPositionUnchanged` | src/components/DraggableCircle.tsx:16-44 | a drag released where it was pressed leaves the circle where it was |
| `CircleModel.RunAppend` | src/components/DraggableCircle.tsx:48-49 | running two mouse sequences one after the other is running their concatenation |
| `CircleModel.TwoDragsCompose` | src/components/DraggableCircle.tsx:20-42 | two successive drags add up: the net translation is the sum of the two displacements on each axis |
| `CircleModel.DraggableCircle.constructor` | src/components/DraggableCircle.tsx:4-14 | the circle starts in the initial state, which is valid |
| `CircleModel.DraggableCircle.HandleDragStart` | src/components/DraggableCircle.tsx:16-25 | the new state is DragStarted of the old one |
| `CircleModel.DraggableCircle.HandleDrag` | src/components/DraggableCircle.tsx:27-33 | the new state is Dragged of the old one |
| `CircleModel.DraggableCircle.HandleDragEnd` | src/components/DraggableCircle.tsx:35-44 | the new state is DragEnded of the old one |
| `CircleModel.DraggableCircle.OnMouse` | src/components/DraggableCircle.tsx:48-49 | delivering a mouse event keeps the circle valid, with the new state Dispatch of the old one |

## Left out

- The measurement of the hour rows (`handleTimeslots`) and of the agenda's top offset reads the DOM; both are inputs. `DayTable` states the shape the page's 24 rows are assumed to have.
- `Packing.CalculateWidthPosition`: requires every event to start before it ends whenever the table has a timeslot. For an event that does not, the comparison interval ends before it starts and `isWithinInterval` throws a RangeError; that exception is not modelled. With no timeslot `isWithinInterval` is never called, so the requirement is not made there.
- `Packing.CalculateWidthPosition`: finishes by returning the new list instead of calling `setEvents`. The functional update and React's batching are not modelled.
- The reduce at src/pages/index.tsx:214-217 compares events by reference. The model compares them by value, which is the same for the page's list of distinct event objects.
- The renaming done by the assignment at src/pages/index.tsx:235 is modelled on the pass's own update list. That the renamed object is also shared with the events state is not modelled. In the source that object is also what later lookups in the same pass read (src/pages/index.tsx:204, 209 and 253), so an event processed after the rename can take another event's conflict set or conflict count; `Packing.Pack` does not reproduce that.
- `roundToNearestHundreth` (src/utils/numberUtils) is not part of this model. It is taken to round to the nearest hundredth with halves rounded up.
- Floating point is not modelled. Percentages are exact hundredths and pixels are reals. The division by zero, which gives Infinity, is modelled by its branch in `Packing.Place`.
- `localeCompare` is modelled as lexicographic order on characters. Locale collation is not modelled.
- Times are seconds from the day's midnight. `date-fns` time zones and daylight-saving transitions are not modelled.
- `SeedExample.SeedLayout`: uses only the timeslots from 1:00 to 9:00. The other rows of the day hold no active event and are dropped by the pass, but that is not proved for the full 24-row table.
- The event card calls `calculateWidthPosition` from `positionEvent`. In the card model that call is left out, because it is the `Packing` pass over the whole list.
- The `timeslots` truthiness check in `positionEvent` is left out: the page always passes an array, and an empty array is truthy.
- `HandleDrag` hands the agenda-relative `newY` to the page's lookup (src/components/EventCard.tsx:102-104), which subtracts the agenda offset again. The card model takes the lookup as a parameter. The properties about the page's lookups are stated at offset 0, the page's own case, where the double subtraction changes nothing.
- React's asynchronous state updates are not modelled: each handler's update is applied before the next event. The stale state closures read by EventCard's and TaskCard's move handlers are not modelled either.
- `Packing.ApartFullWidth`: requires every event to be active at the date of some timeslot. The full width for events that are pairwise apart does not hold without it: an event active in no timeslot (one shorter than an hour lying between two rows, or one outside the table's hours) has count -1, takes the division by zero, and can send a later event through the newline branch to -899%, as `PackingExamples.ApartUncoveredOffscreen` shows.
- `Packing.Pack`: does not promise that events active at the same time get spans that do not overlap. The pass as written breaks it: `OverlapExample.ConcurrentSpansOverlap` gives an input where two concurrent events overlap. The model's layout for that input relies on the renaming at src/pages/index.tsx:235 taking effect only in the update list. In the source the first event is itself renamed, and both events with its new identifier take 0/50%, so they overlap too.
- `Packing.Pack`: does not promise that packing a packed list again gives the same list. The model's pass reads no inset, but that is not stated as a lemma. In the source the property can fail once line 235 has renamed an event, because the second pass sees the new identifier.
- `PackingExamples.NewlineLookupRenames`: its second ensures, event 1 getting 0/0, holds for the model's unshared update list only. In the source event 1 is itself renamed to "2" and takes 0/50%.
- The circle's own release handler is a function created in a later render, so the listeners it removes were never attached; the window's listener then ends the drag a second time and detaches itself. `CircleModel.DragEndedSpec` shows that this gives the same state.
- The rectangle's own release handler is a function created in a later render, so the browser may not remove the window listener it names; the window's listener then ends the drag a second time. `RectangleModel.DragEndedSpec` shows that this gives the same state.
- Listener identity is modelled as one flag per listener. A second press during a drag attaches a second copy of a listener, which is not modelled.
- Logging, `document.onselectstart`, pointer capture and styling are not modelled. `stopPropagation` on the resize handle is modelled only as a handle press not starting a drag.
- The `?? 0` fallbacks for a missing parent element are not modelled; the container's edges are parameters.
- The event card's modal and its form, `src/utils/dateUtils.ts`, `tailwind.config.ts` and `src/pages/sample/index.tsx` are not part of this model.

## Findings

| source | as written | input that shows it | evidently intended | confidence | as-written member | corrected member |
|---|---|---|---|---|---|---|
| src/pages/index.tsx:109 | a band holds a point when `top <= y && bottom >= y`. Contiguous bands share their edges, so a point on a band's top edge is claimed by the band above | bands hour 1 over [0,80] and hour 2 over [80,160]: y = 80 gives hour 1. On the page, a card placed at its start hour and pressed and moved without vertical displacement asks for its event to move one hour earlier, and one dragged down by exactly its start row's height stays at its hour | half-open bands `top <= y < bottom`, under which every point belongs to exactly one band, and a card's top edge maps back to its start hour | high, not executed | `Coordinates.BandTopMapsToPreviousHour`, `Coordinates.RoundTripAsWritten`, `EventCardModel.StillDragMovesEarlier`, `EventCardModel.OneRowDragStaysAsWritten` | `Coordinates.HourAtHalfOpen`, proved in `Coordinates.HalfOpenMapsToOwnHour`, `Coordinates.HalfOpenRoundTrip`, `EventCardModel.StillDragStaysHalfOpen`, `EventCardModel.OneRowDragShiftsHalfOpen` |
| src/pages/index.tsx:235 | the `find` callback assigns `u.event.id = ce.id` instead of comparing. It returns the first update whenever the identifier is non-empty, and renames that update's event | updates [("1", 0, 50%), ("2", 50%, 0)] and one conflicting event "2": the loop reads 50% from event 1's update and renames it to "2". In the source the renamed object is event 1 itself, so afterwards no event has the identifier "1" and both events with "2" take that update's insets 0/50%. In the model, which renames only its own update list, event 1 gets 0/0 | compare with `===`, reading each conflicting event's own update and renaming nothing | high, not executed | `Packing.ShortestRightSpec`, `PackingExamples.NewlineLookupRenames` | `Packing.ShortestRightById`, proved in `Packing.ShortestRightByIdSpec` |

The card model takes the lookup as a parameter, so the event card's
properties are stated for either lookup. The width pass keeps the
assignment as written, because the layout it produces is the page's; the
compared lookup is defined and proved beside it.
