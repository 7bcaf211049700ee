/** The page's coordinate mapping between pointer positions and hours, over
    the measured timeslot bands, and its replace-by-identifier update of an
    event's start and end. */
module Coordinates {
  import opened PlannerTypes

  /** Array.prototype.find: the first timeslot satisfying `p`. */
  function Find(slots: seq<Timeslot>, p: Timeslot -> bool): Option<Timeslot>
  {
    if slots == [] then None
    else if p(slots[0]) then Some(slots[0])
    else Find(slots[1..], p)
  }

  /** The lookup fails exactly when no timeslot satisfies `p`, and otherwise
      yields the first one that does. */
  lemma {:induction false} FindSpec(slots: seq<Timeslot>, p: Timeslot -> bool)
    ensures Find(slots, p).None? <==> forall k :: 0 <= k < |slots| ==> !p(slots[k])
    ensures Find(slots, p).Some? ==>
              exists k :: 0 <= k < |slots| && slots[k] == Find(slots, p).value && p(slots[k]) &&
                          forall j :: 0 <= j < k ==> !p(slots[j])
  {
    if slots != [] && !p(slots[0]) {
      var t := slots[1..];
      FindSpec(t, p);
      assert forall k :: 1 <= k < |slots| ==> slots[k] == t[k - 1];
      if Find(t, p).Some? {
        var k :| 0 <= k < |t| && t[k] == Find(t, p).value && p(t[k]) &&
                 forall j :: 0 <= j < k ==> !p(t[j]);
        assert slots[k + 1] == t[k];
        forall j | 0 <= j < k + 1
          ensures !p(slots[j])
        {
          if j > 0 { assert slots[j] == t[j - 1]; }
        }
      }
    }
  }

  /** A timeslot that satisfies `p` with none before it is the one found. */
  lemma {:induction false} FindFirst(slots: seq<Timeslot>, p: Timeslot -> bool, k: nat)
    requires k < |slots| && p(slots[k])
    requires forall j :: 0 <= j < k ==> !p(slots[j])
    ensures Find(slots, p) == Some(slots[k])
  {
    if k > 0 {
      var t := slots[1..];
      assert !p(slots[0]);
      forall j | 0 <= j < k - 1
        ensures !p(t[j])
      {
        assert t[j] == slots[j + 1];
      }
      FindFirst(t, p, k - 1);
    }
  }

  // ---------------------------------------------------------------------
  // Pointer position to hour

  /** `y` lies in the band of the timeslot, both edges included. */
  predicate InBand(t: Timeslot, y: real)
  {
    t.top <= y <= t.bottom
  }

  /** calculateHourBasedOnPosition: the hour of the first timeslot whose band,
      edges included, holds the pointer made relative to the agenda top. */
  function HourAt(slots: seq<Timeslot>, offset: real, clientY: real): Option<int>
  {
    match Find(slots, t => InBand(t, clientY - offset))
    case None => None
    case Some(t) => Some(t.hour)
  }

  /** No hour exactly when no band holds the pointer; otherwise the hour of
      the first band that holds it. */
  lemma HourAtSpec(slots: seq<Timeslot>, offset: real, clientY: real)
    ensures var y := clientY - offset;
            && (HourAt(slots, offset, clientY).None? <==> forall k :: 0 <= k < |slots| ==> !InBand(slots[k], y))
            && (HourAt(slots, offset, clientY).Some? ==>
                  exists k :: 0 <= k < |slots| && InBand(slots[k], y) &&
                              slots[k].hour == HourAt(slots, offset, clientY).value &&
                              forall j :: 0 <= j < k ==> !InBand(slots[j], y))
  {
    var y := clientY - offset;
    var p := t => InBand(t, y);
    FindSpec(slots, p);
    assert forall k :: 0 <= k < |slots| ==> (p(slots[k]) <==> InBand(slots[k], y));
  }

  /** The bands stacked top to bottom without gap or overlap, each of
      positive height, as the agenda's hour rows are laid out. */
  ghost predicate Contiguous(slots: seq<Timeslot>)
  {
    && (forall k :: 0 <= k < |slots| ==> slots[k].top < slots[k].bottom)
    && (forall k :: 0 < k < |slots| ==> slots[k - 1].bottom == slots[k].top)
  }

  /** The agenda of the page: one timeslot per hour of the day, in order. */
  ghost predicate DayTable(slots: seq<Timeslot>)
  {
    && |slots| == 24
    && (forall k :: 0 <= k < 24 ==> slots[k].hour == k)
    && Contiguous(slots)
  }

  /** In contiguous bands every band lies above the top of each later one. */
  lemma {:induction false} ContiguousOrdered(slots: seq<Timeslot>, j: nat, k: nat)
    requires Contiguous(slots) && j < k < |slots|
    ensures slots[j].bottom <= slots[k].top
    ensures j + 1 < k ==> slots[j].bottom < slots[k].top
    decreases k - j
  {
    if j + 1 < k {
      ContiguousOrdered(slots, j + 1, k);
      assert slots[j + 1].top < slots[j + 1].bottom;
    }
  }

  /** As written: a pointer exactly on the top edge of a band (which is the
      bottom edge of the band above) maps to the hour of the band above. */
  lemma BandTopMapsToPreviousHour(slots: seq<Timeslot>, offset: real, k: nat)
    requires Contiguous(slots) && 0 < k < |slots|
    ensures HourAt(slots, offset, slots[k].top + offset) == Some(slots[k - 1].hour)
  {
    var y := slots[k].top + offset - offset;
    var p := t => InBand(t, y);
    forall j | 0 <= j < k - 1
      ensures !p(slots[j])
    {
      ContiguousOrdered(slots, j, k);
    }
    FindFirst(slots, p, k - 1);
  }

  lemma TopEdgeExample()
    ensures HourAt([Timeslot(1, 1 * HOUR, 0.0, 80.0), Timeslot(2, 2 * HOUR, 80.0, 160.0)], 0.0, 80.0) == Some(1)
  {
    var slots := [Timeslot(1, 1 * HOUR, 0.0, 80.0), Timeslot(2, 2 * HOUR, 80.0, 160.0)];
    BandTopMapsToPreviousHour(slots, 0.0, 1);
  }

  /** `y` lies in the band of the timeslot, top edge included, bottom edge
      excluded: the band the pointer is on. */
  predicate InHalfOpenBand(t: Timeslot, y: real)
  {
    t.top <= y < t.bottom
  }

  /** The lookup with half-open bands, under which every point of the
      agenda belongs to exactly one band. */
  function HourAtHalfOpen(slots: seq<Timeslot>, offset: real, clientY: real): Option<int>
  {
    match Find(slots, t => InHalfOpenBand(t, clientY - offset))
    case None => None
    case Some(t) => Some(t.hour)
  }

  /** With half-open contiguous bands, a pointer anywhere in band k, its top
      edge included, maps to the hour of band k. */
  lemma HalfOpenMapsToOwnHour(slots: seq<Timeslot>, offset: real, k: nat, clientY: real)
    requires Contiguous(slots) && k < |slots|
    requires InHalfOpenBand(slots[k], clientY - offset)
    ensures HourAtHalfOpen(slots, offset, clientY) == Some(slots[k].hour)
  {
    var y := clientY - offset;
    var p := t => InHalfOpenBand(t, y);
    forall j | 0 <= j < k
      ensures !p(slots[j])
    {
      ContiguousOrdered(slots, j, k);
    }
    FindFirst(slots, p, k);
  }

  /** Outside every band there is no hour, as with the source's lookup. */
  lemma HalfOpenOutside(slots: seq<Timeslot>, offset: real, clientY: real)
    requires forall k :: 0 <= k < |slots| ==> !InHalfOpenBand(slots[k], clientY - offset)
    ensures HourAtHalfOpen(slots, offset, clientY).None?
  {
    var y := clientY - offset;
    FindSpec(slots, t => InHalfOpenBand(t, y));
  }

  // ---------------------------------------------------------------------
  // Hours to pixel band

  /** The vertical extent of an event card, relative to the agenda. */
  datatype Band = Band(top: real, bottom: real)

  /** The first timeslot of the given hour (the hour of a Date is getHours). */
  function SlotOfHour(slots: seq<Timeslot>, h: int): Option<Timeslot>
  {
    Find(slots, (t: Timeslot) => t.hour == h)
  }

  /** calculatePositionBaseOnHour: from the top of the start hour's slot to
      the top of the end hour's slot, relative to the agenda; when either
      slot is missing, the agenda offset itself for both edges. */
  function PositionForHours(slots: seq<Timeslot>, offset: real, start: Time, end: Time): Band
  {
    var first := SlotOfHour(slots, HourOf(start));
    var second := SlotOfHour(slots, HourOf(end));
    if first.None? || second.None? then Band(offset, offset)
    else Band(first.value.top - offset, second.value.top - offset)
  }

  lemma {:induction false} SlotOfHourSpec(slots: seq<Timeslot>, h: int)
    ensures SlotOfHour(slots, h).None? <==> forall k :: 0 <= k < |slots| ==> slots[k].hour != h
    ensures SlotOfHour(slots, h).Some? ==>
              exists k :: 0 <= k < |slots| && slots[k] == SlotOfHour(slots, h).value && slots[k].hour == h &&
                          forall j :: 0 <= j < k ==> slots[j].hour != h
  {
    var p := (t: Timeslot) => t.hour == h;
    FindSpec(slots, p);
    assert forall k :: 0 <= k < |slots| ==> (p(slots[k]) <==> slots[k].hour == h);
  }

  /** The fallback is taken exactly when the start or the end hour has no
      timeslot; it is not made relative to the agenda. Otherwise both edges
      are the tops of the first slots of the two hours, made relative. */
  lemma PositionForHoursSpec(slots: seq<Timeslot>, offset: real, start: Time, end: Time)
    ensures var b := PositionForHours(slots, offset, start, end);
            var missing := (forall k :: 0 <= k < |slots| ==> slots[k].hour != HourOf(start)) ||
                           (forall k :: 0 <= k < |slots| ==> slots[k].hour != HourOf(end));
            && (missing ==> b == Band(offset, offset))
            && (!missing ==>
                  (exists k :: 0 <= k < |slots| && slots[k].hour == HourOf(start) && b.top == slots[k].top - offset &&
                               forall j :: 0 <= j < k ==> slots[j].hour != HourOf(start)) &&
                  (exists k :: 0 <= k < |slots| && slots[k].hour == HourOf(end) && b.bottom == slots[k].top - offset &&
                               forall j :: 0 <= j < k ==> slots[j].hour != HourOf(end)))
  {
    SlotOfHourSpec(slots, HourOf(start));
    SlotOfHourSpec(slots, HourOf(end));
  }

  /** On the page's day table both hours are always found: the card spans
      from the top of its start hour's row to the top of its end hour's row. */
  lemma DayTablePosition(slots: seq<Timeslot>, offset: real, start: Time, end: Time)
    requires DayTable(slots)
    ensures PositionForHours(slots, offset, start, end) ==
            Band(slots[HourOf(start)].top - offset, slots[HourOf(end)].top - offset)
  {
    forall h | 0 <= h < 24
      ensures SlotOfHour(slots, h) == Some(slots[h])
    {
      FindFirst(slots, (t: Timeslot) => t.hour == h, h);
    }
  }

  /** Hour to pixel and back with the half-open lookup (agenda at the top of
      the page): the top edge of a card maps back to its start hour. */
  lemma HalfOpenRoundTrip(slots: seq<Timeslot>, start: Time, end: Time)
    requires DayTable(slots)
    ensures HourAtHalfOpen(slots, 0.0, PositionForHours(slots, 0.0, start, end).top) == Some(HourOf(start))
  {
    DayTablePosition(slots, 0.0, start, end);
    HalfOpenMapsToOwnHour(slots, 0.0, HourOf(start), slots[HourOf(start)].top);
  }

  /** The same round trip with the lookup as written: any start hour after
      midnight comes back one hour early. */
  lemma RoundTripAsWritten(slots: seq<Timeslot>, start: Time, end: Time)
    requires DayTable(slots) && HourOf(start) > 0
    ensures HourAt(slots, 0.0, PositionForHours(slots, 0.0, start, end).top) == Some(HourOf(start) - 1)
  {
    DayTablePosition(slots, 0.0, start, end);
    BandTopMapsToPreviousHour(slots, 0.0, HourOf(start));
    assert slots[HourOf(start)].top + 0.0 == slots[HourOf(start)].top;
  }

  // ---------------------------------------------------------------------
  // Event update

  /** handleUpdateEvent: every event carrying `id` takes the new start and
      end; every other event is kept as it is. */
  function UpdateEvent(events: seq<AgendaEvent>, start: Time, end: Time, id: string): seq<AgendaEvent>
  {
    seq(|events|, i requires 0 <= i < |events| =>
      if events[i].id == id then events[i].(start := start, end := end) else events[i])
  }

  /** The update keeps the list's length, order and identifiers, changes
      nothing but the start and end, and changes them exactly for the events
      carrying `id`. */
  lemma UpdateEventSpec(events: seq<AgendaEvent>, start: Time, end: Time, id: string)
    ensures var r := UpdateEvent(events, start, end, id);
            && |r| == |events|
            && (forall i :: 0 <= i < |r| ==>
                  r[i].(start := events[i].start, end := events[i].end) == events[i])
            && (forall i :: 0 <= i < |r| ==>
                  (r[i] != events[i] ==> events[i].id == id) &&
                  (events[i].id == id ==> r[i].start == start && r[i].end == end))
  {
  }

  /** Updating twice with the same identifier is the second update alone. */
  lemma UpdateEventLastWins(events: seq<AgendaEvent>, s1: Time, e1: Time, s2: Time, e2: Time, id: string)
    ensures UpdateEvent(UpdateEvent(events, s1, e1, id), s2, e2, id) == UpdateEvent(events, s2, e2, id)
  {
    var a := UpdateEvent(UpdateEvent(events, s1, e1, id), s2, e2, id);
    var b := UpdateEvent(events, s2, e2, id);
    assert |a| == |b|;
    forall i | 0 <= i < |a|
      ensures a[i] == b[i]
    {
    }
  }

  /** An identifier no event carries leaves the list unchanged. */
  lemma UpdateEventMissing(events: seq<AgendaEvent>, start: Time, end: Time, id: string)
    requires forall e :: e in events ==> e.id != id
    ensures UpdateEvent(events, start, end, id) == events
  {
    var r := UpdateEvent(events, start, end, id);
    forall i | 0 <= i < |events|
      ensures r[i] == events[i]
    {
      assert events[i] in events;
    }
  }
}
