/** The width-positioning pass of the planner page (calculateWidthPosition):
    events are sorted longest first, grouped by the hour timeslots in which
    they are active, given a conflict count, and then walked with a
    horizontal cursor that hands every event a `left`/`right` inset pair,
    which is finally written back onto the event list.

    Percentages are integers in hundredths (FULL = 100%). */
module Packing {
  import opened PlannerTypes
  import opened Ranking

  /** 100% of the agenda width. */
  const FULL: int := 10000
  /** The starting value 999 of `shortestRight`, in hundredths. */
  const NO_RIGHT: int := 99900

  /** The two exceptions the pass can throw. */
  datatype PackError =
    | ConflictCountMissing   // "Unable to find event conflict count"
    | NewlineStartMissing    // "Unable to determine starting point for new line"

  /** Every event starts before it ends. Otherwise its comparison interval
      ends before it starts, and `isWithinInterval` throws on it. */
  predicate ValidIntervals(events: seq<AgendaEvent>)
  {
    forall e :: e in events ==> e.start < e.end
  }

  ghost predicate UniqueIds(events: seq<AgendaEvent>)
  {
    forall i, j :: 0 <= i < j < |events| ==> events[i].id != events[j].id
  }

  ghost predicate NoDuplicates<T>(s: seq<T>)
  {
    forall i, j :: 0 <= i < j < |s| ==> s[i] != s[j]
  }

  // ---------------------------------------------------------------------
  // Sorting by duration

  /** Each event with its length in whole minutes. */
  function DurationRanked(events: seq<AgendaEvent>): seq<Ranked>
  {
    seq(|events|, i requires 0 <= i < |events| =>
      Ranked(events[i], DifferenceInMinutes(events[i].end, events[i].start)))
  }

  function EventsSortedByDuration(events: seq<AgendaEvent>): seq<Ranked>
  {
    SortByRank(DurationRanked(events))
  }

  /** The events of a ranked list, in order. */
  function EventsOf(s: seq<Ranked>): seq<AgendaEvent>
  {
    if s == [] then [] else [s[0].event] + EventsOf(s[1..])
  }

  lemma {:induction false} EventsOfIndex(s: seq<Ranked>)
    ensures |EventsOf(s)| == |s|
    ensures forall k :: 0 <= k < |s| ==> EventsOf(s)[k] == s[k].event
  {
    if s != [] {
      EventsOfIndex(s[1..]);
    }
  }

  lemma EventsOfCons(y: Ranked, t: seq<Ranked>)
    ensures EventsOf([y] + t) == [y.event] + EventsOf(t)
  {
    assert ([y] + t)[1..] == t;
  }

  lemma {:induction false} EventsOfInsert(x: Ranked, s: seq<Ranked>)
    ensures multiset(EventsOf(Insert(x, s))) == multiset(EventsOf(s)) + multiset{x.event}
  {
    if s != [] && RankBefore(s[0], x) {
      var t := Insert(x, s[1..]);
      EventsOfInsert(x, s[1..]);
      assert Insert(x, s) == [s[0]] + t;
      EventsOfCons(s[0], t);
      assert s == [s[0]] + s[1..];
      EventsOfCons(s[0], s[1..]);
      var head := multiset{s[0].event};
      assert multiset(EventsOf(Insert(x, s))) == head + multiset(EventsOf(t));
      assert multiset(EventsOf(s)) == head + multiset(EventsOf(s[1..]));
    } else {
      assert Insert(x, s) == [x] + s;
      EventsOfCons(x, s);
    }
  }

  lemma {:induction false} EventsOfSort(s: seq<Ranked>)
    ensures multiset(EventsOf(SortByRank(s))) == multiset(EventsOf(s))
  {
    if s != [] {
      EventsOfSort(s[1..]);
      EventsOfInsert(s[0], SortByRank(s[1..]));
      assert EventsOf(s) == [s[0].event] + EventsOf(s[1..]);
    }
  }

  lemma EventsOfDuration(events: seq<AgendaEvent>)
    ensures EventsOf(DurationRanked(events)) == events
  {
    EventsOfIndex(DurationRanked(events));
  }

  lemma DurationRankedMember(events: seq<AgendaEvent>, x: Ranked)
    requires x in DurationRanked(events)
    ensures x.event in events && x.rank == DifferenceInMinutes(x.event.end, x.event.start)
  {
  }

  /** Each entry of the sorted list is an event of the list with its own
      duration in minutes. */
  lemma SortedByDurationEntries(events: seq<AgendaEvent>)
    ensures multiset(EventsOf(EventsSortedByDuration(events))) == multiset(events)
    ensures forall x :: x in EventsSortedByDuration(events) ==>
              x.event in events && x.rank == DifferenceInMinutes(x.event.end, x.event.start)
  {
    var d := DurationRanked(events);
    EventsOfSort(d);
    EventsOfDuration(events);
    forall x | x in EventsSortedByDuration(events)
      ensures x.event in events && x.rank == DifferenceInMinutes(x.event.end, x.event.start)
    {
      assert x in multiset(SortByRank(d));
      assert x in multiset(d);
      DurationRankedMember(events, x);
    }
  }

  lemma SortedByDurationOrdered(events: seq<AgendaEvent>)
    ensures forall i, j :: 0 <= i < j < |EventsSortedByDuration(events)| ==>
              var a, b := EventsSortedByDuration(events)[i], EventsSortedByDuration(events)[j];
              a.rank > b.rank || (a.rank == b.rank && !IdLess(b.event.id, a.event.id))
  {
    SortByRankSorted(DurationRanked(events));
  }

  /** eventsSortedByDuration holds every event once (a permutation of the
      list), each with its duration in minutes, longest first and equal
      durations in identifier order. */
  lemma SortedByDurationSpec(events: seq<AgendaEvent>)
    ensures multiset(EventsOf(EventsSortedByDuration(events))) == multiset(events)
    ensures forall x :: x in EventsSortedByDuration(events) ==>
              x.event in events && x.rank == DifferenceInMinutes(x.event.end, x.event.start)
    ensures forall i, j :: 0 <= i < j < |EventsSortedByDuration(events)| ==>
              var a, b := EventsSortedByDuration(events)[i], EventsSortedByDuration(events)[j];
              a.rank > b.rank || (a.rank == b.rank && !IdLess(b.event.id, a.event.id))
  {
    SortedByDurationEntries(events);
    SortedByDurationOrdered(events);
  }

  // ---------------------------------------------------------------------
  // Events active in each timeslot

  /** The comparison interval of an event ends one second before its end. */
  function ComparisonEnd(e: AgendaEvent): Time
  {
    e.end - 1
  }

  /** isWithinInterval(date, {start, end - 1s}): both ends inclusive. */
  predicate IsActive(e: AgendaEvent, date: Time)
  {
    e.start <= date <= ComparisonEnd(e)
  }

  /** An event is never active at the instant it ends, so one ending at an
      hour and one starting at that hour never share that hour's slot. */
  lemma {:induction false} NotActiveAtEnd(e: AgendaEvent, f: AgendaEvent)
    requires e.end == f.start
    ensures forall d :: !(IsActive(e, d) && IsActive(f, d))
  {
  }

  /** The sorted events active at `date`, in sorted order (the filter). */
  function ActiveAt(sorted: seq<Ranked>, date: Time): seq<Ranked>
  {
    if sorted == [] then []
    else (if IsActive(sorted[0].event, date) then [sorted[0]] else []) + ActiveAt(sorted[1..], date)
  }

  /** The filter keeps exactly the active entries, and no entry twice. */
  lemma {:induction false} ActiveAtSpec(sorted: seq<Ranked>, date: Time)
    ensures forall x :: x in ActiveAt(sorted, date) <==> x in sorted && IsActive(x.event, date)
    ensures |ActiveAt(sorted, date)| <= |sorted|
    ensures NoDuplicates(sorted) ==> NoDuplicates(ActiveAt(sorted, date))
  {
    if sorted != [] {
      var rest := sorted[1..];
      ActiveAtSpec(rest, date);
      assert sorted == [sorted[0]] + rest;
      if NoDuplicates(sorted) {
        forall k | 0 <= k < |rest|
          ensures rest[k] != sorted[0]
        {
          assert rest[k] == sorted[k + 1];
        }
        assert NoDuplicates(rest) by {
          forall a, b | 0 <= a < b < |rest|
            ensures rest[a] != rest[b]
          {
            assert rest[a] == sorted[a + 1] && rest[b] == sorted[b + 1];
          }
        }
      }
    }
  }

  /** A timeslot with the events active at its date. */
  datatype SlotEvents = SlotEvents(timeslot: Timeslot, eventsInTimeslot: seq<Ranked>)

  /** timeslotWithEvents: the timeslots, in order, each with its active
      events; timeslots without active events are dropped. */
  function SlotsWithEvents(slots: seq<Timeslot>, sorted: seq<Ranked>): seq<SlotEvents>
  {
    if slots == [] then []
    else
      var a := ActiveAt(sorted, slots[0].date);
      (if |a| > 0 then [SlotEvents(slots[0], a)] else []) + SlotsWithEvents(slots[1..], sorted)
  }

  /** Every kept timeslot carries its own active events and at least one of
      them, and no timeslot with an active event is dropped. */
  lemma {:induction false} SlotsWithEventsSpec(slots: seq<Timeslot>, sorted: seq<Ranked>)
    ensures forall se :: se in SlotsWithEvents(slots, sorted) ==>
              && se.timeslot in slots
              && se.eventsInTimeslot == ActiveAt(sorted, se.timeslot.date)
              && |se.eventsInTimeslot| > 0
    ensures forall t :: t in slots && |ActiveAt(sorted, t.date)| > 0 ==>
              SlotEvents(t, ActiveAt(sorted, t.date)) in SlotsWithEvents(slots, sorted)
  {
    if slots != [] {
      SlotsWithEventsSpec(slots[1..], sorted);
      assert slots == [slots[0]] + slots[1..];
    }
  }

  /** Some entry of the list belongs to the event with identifier `id`. */
  predicate HasId(evs: seq<Ranked>, id: string)
  {
    exists k :: 0 <= k < |evs| && evs[k].event.id == id
  }

  // ---------------------------------------------------------------------
  // Conflict counts

  /** The largest number of events sharing a timeslot with `id`, by the
      reduce with start value 0. */
  function MaxOccupancy(sws: seq<SlotEvents>, id: string): nat
  {
    if sws == [] then 0
    else
      var rest := MaxOccupancy(sws[1..], id);
      var here := if HasId(sws[0].eventsInTimeslot, id) then |sws[0].eventsInTimeslot| else 0;
      if rest > here then rest else here
  }

  /** The reduce yields the size of the fullest timeslot holding `id`, and 0
      when no timeslot holds it. */
  lemma {:induction false} MaxOccupancySpec(sws: seq<SlotEvents>, id: string)
    ensures forall k :: 0 <= k < |sws| && HasId(sws[k].eventsInTimeslot, id) ==>
              |sws[k].eventsInTimeslot| <= MaxOccupancy(sws, id)
    ensures (forall k :: 0 <= k < |sws| ==> !HasId(sws[k].eventsInTimeslot, id)) ==>
              MaxOccupancy(sws, id) == 0
    ensures (exists k :: 0 <= k < |sws| && HasId(sws[k].eventsInTimeslot, id)) ==>
              exists k :: 0 <= k < |sws| && HasId(sws[k].eventsInTimeslot, id) &&
                          |sws[k].eventsInTimeslot| == MaxOccupancy(sws, id)
  {
    if sws != [] {
      MaxOccupancySpec(sws[1..], id);
      assert forall k :: 1 <= k < |sws| ==> sws[k] == sws[1..][k - 1];
      if HasId(sws[0].eventsInTimeslot, id) {
        assert |sws[0].eventsInTimeslot| > 0;
      }
    }
  }

  /** maxConflictCount: the busiest shared timeslot minus the event itself. */
  function ConflictCount(sws: seq<SlotEvents>, id: string): int
  {
    MaxOccupancy(sws, id) - 1
  }

  function CountRanked(events: seq<AgendaEvent>, sws: seq<SlotEvents>): seq<Ranked>
  {
    seq(|events|, i requires 0 <= i < |events| => Ranked(events[i], ConflictCount(sws, events[i].id)))
  }

  /** eventsSortedByConflictCount: most conflicts first, identifier as tiebreak. */
  function EventsSortedByConflictCount(events: seq<AgendaEvent>, sws: seq<SlotEvents>): seq<Ranked>
  {
    SortByRank(CountRanked(events, sws))
  }

  /** The rank of the first entry with identifier `id`, if any (the `find`). */
  function FindCount(counted: seq<Ranked>, id: string): Option<int>
  {
    if counted == [] then None
    else if counted[0].event.id == id then Some(counted[0].rank)
    else FindCount(counted[1..], id)
  }

  /** The lookup fails only when no entry carries `id`, and otherwise yields
      the rank of an entry carrying it. */
  lemma {:induction false} FindCountSpec(counted: seq<Ranked>, id: string)
    ensures FindCount(counted, id).None? <==> !HasId(counted, id)
    ensures FindCount(counted, id).Some? ==>
              exists k :: 0 <= k < |counted| && counted[k].event.id == id &&
                          counted[k].rank == FindCount(counted, id).value
  {
    if counted != [] && counted[0].event.id != id {
      FindCountSpec(counted[1..], id);
      assert forall k :: 1 <= k < |counted| ==> counted[k] == counted[1..][k - 1];
      if HasId(counted, id) {
        var k :| 0 <= k < |counted| && counted[k].event.id == id;
        assert counted[1..][k - 1].event.id == id;
      }
    }
  }

  /** `me` is the only entry of `sorted` carrying its identifier. */
  ghost predicate OnlyEntryWithId(sorted: seq<Ranked>, me: Ranked)
  {
    me in sorted && forall x :: x in sorted && x.event.id == me.event.id ==> x == me
  }

  /** A timeslot's active list holds the identifier of an entry that is alone
      with its identifier exactly when that entry is active at the date. */
  lemma ActiveHasIdOf(sorted: seq<Ranked>, me: Ranked, d: Time)
    requires OnlyEntryWithId(sorted, me)
    ensures HasId(ActiveAt(sorted, d), me.event.id) <==> IsActive(me.event, d)
  {
    var a := ActiveAt(sorted, d);
    ActiveAtSpec(sorted, d);
    if IsActive(me.event, d) {
      assert me in a;
      var k :| 0 <= k < |a| && a[k] == me;
    }
    if HasId(a, me.event.id) {
      var k :| 0 <= k < |a| && a[k].event.id == me.event.id;
      assert a[k] in sorted;
    }
  }

  /** A row of the table holds the entry's identifier exactly when the entry
      is active at the row's date. */
  lemma SlotsHoldingEntry(sorted: seq<Ranked>, slots: seq<Timeslot>, me: Ranked)
    requires OnlyEntryWithId(sorted, me)
    ensures var sws := SlotsWithEvents(slots, sorted);
            forall k :: 0 <= k < |sws| ==>
              && sws[k].timeslot in slots
              && (HasId(sws[k].eventsInTimeslot, me.event.id) <==> IsActive(me.event, sws[k].timeslot.date))
  {
    var sws := SlotsWithEvents(slots, sorted);
    SlotsWithEventsSpec(slots, sorted);
    forall k | 0 <= k < |sws|
      ensures sws[k].timeslot in slots
      ensures HasId(sws[k].eventsInTimeslot, me.event.id) <==> IsActive(me.event, sws[k].timeslot.date)
    {
      assert sws[k] in sws;
      ActiveHasIdOf(sorted, me, sws[k].timeslot.date);
    }
  }

  /** The conflict count of an entry alone with its identifier, over any table. */
  lemma ConflictCountOf(sorted: seq<Ranked>, slots: seq<Timeslot>, me: Ranked)
    requires OnlyEntryWithId(sorted, me)
    ensures var c := ConflictCount(SlotsWithEvents(slots, sorted), me.event.id);
            && (c == -1 <==> forall t :: t in slots ==> !IsActive(me.event, t.date))
            && (forall t :: t in slots && IsActive(me.event, t.date) ==> |ActiveAt(sorted, t.date)| - 1 <= c)
            && (c >= 0 ==> exists t :: t in slots && IsActive(me.event, t.date) &&
                                       |ActiveAt(sorted, t.date)| - 1 == c)
  {
    var id := me.event.id;
    var sws := SlotsWithEvents(slots, sorted);
    var c := ConflictCount(sws, id);
    SlotsWithEventsSpec(slots, sorted);
    MaxOccupancySpec(sws, id);
    SlotsHoldingEntry(sorted, slots, me);
    if c >= 0 {
      var k :| 0 <= k < |sws| && HasId(sws[k].eventsInTimeslot, id) &&
               |sws[k].eventsInTimeslot| == c + 1;
      assert sws[k].eventsInTimeslot == ActiveAt(sorted, sws[k].timeslot.date) by {
        assert sws[k] in sws;
      }
    }
    forall t | t in slots && IsActive(me.event, t.date)
      ensures 0 <= |ActiveAt(sorted, t.date)| - 1 <= c
    {
      var a := ActiveAt(sorted, t.date);
      ActiveHasIdOf(sorted, me, t.date);
      assert SlotEvents(t, a) in sws;
      var k :| 0 <= k < |sws| && sws[k] == SlotEvents(t, a);
    }
  }

  /** Every event of the list is in the sorted list, ranked by its duration. */
  lemma SortedHasEvent(events: seq<AgendaEvent>, e: AgendaEvent)
    requires e in events
    ensures Ranked(e, DifferenceInMinutes(e.end, e.start)) in EventsSortedByDuration(events)
  {
    var i :| 0 <= i < |events| && events[i] == e;
    assert DurationRanked(events)[i] == Ranked(e, DifferenceInMinutes(e.end, e.start));
    assert Ranked(e, DifferenceInMinutes(e.end, e.start)) in multiset(DurationRanked(events));
  }

  /** With unique identifiers, every event's entry is the only one with its
      identifier in the duration-sorted list. */
  lemma SortedOnlyEntry(events: seq<AgendaEvent>, e: AgendaEvent)
    requires UniqueIds(events) && e in events
    ensures OnlyEntryWithId(EventsSortedByDuration(events), Ranked(e, DifferenceInMinutes(e.end, e.start)))
  {
    var sorted := EventsSortedByDuration(events);
    SortedHasEvent(events, e);
    SortedByDurationSpec(events);
    forall x | x in sorted && x.event.id == e.id
      ensures x == Ranked(e, DifferenceInMinutes(e.end, e.start))
    {
      SameIdSameEvent(events, x.event, e);
    }
  }

  /** For an event of the list (identifiers being unique), its conflict count
      is the largest number of events active with it in one timeslot, minus
      itself, over the timeslots it is active in; it is -1 exactly when the
      event is active in no timeslot. */
  lemma ConflictCountMeaning(events: seq<AgendaEvent>, slots: seq<Timeslot>, e: AgendaEvent)
    requires UniqueIds(events) && e in events
    ensures var sorted := EventsSortedByDuration(events);
            var c := ConflictCount(SlotsWithEvents(slots, sorted), e.id);
            && (c == -1 <==> forall t :: t in slots ==> !IsActive(e, t.date))
            && (forall t :: t in slots && IsActive(e, t.date) ==> |ActiveAt(sorted, t.date)| - 1 <= c)
            && (c >= 0 ==> exists t :: t in slots && IsActive(e, t.date) &&
                                       |ActiveAt(sorted, t.date)| - 1 == c)
  {
    SortedOnlyEntry(events, e);
    ConflictCountOf(EventsSortedByDuration(events), slots, Ranked(e, DifferenceInMinutes(e.end, e.start)));
  }

  lemma SameIdSameEvent(events: seq<AgendaEvent>, x: AgendaEvent, y: AgendaEvent)
    requires UniqueIds(events) && x in events && y in events && x.id == y.id
    ensures x == y
  {
    var i :| 0 <= i < |events| && events[i] == x;
    var j :| 0 <= j < |events| && events[j] == y;
    assert i == j;
  }

  // ---------------------------------------------------------------------
  // Conflicting events of the newline branch

  /** The events of one timeslot other than `id` (the inner filter and map). */
  function Others(evs: seq<Ranked>, id: string): seq<AgendaEvent>
  {
    if evs == [] then []
    else (if evs[0].event.id != id then [evs[0].event] else []) + Others(evs[1..], id)
  }

  lemma {:induction false} OthersSpec(evs: seq<Ranked>, id: string)
    ensures forall x :: x in Others(evs, id) <==> x.id != id && x in EventsOf(evs)
  {
    if evs != [] {
      OthersSpec(evs[1..], id);
      assert EventsOf(evs) == [evs[0].event] + EventsOf(evs[1..]);
    }
  }

  /** The other events of every timeslot holding `id`, flattened. */
  function ConflictingFlat(sws: seq<SlotEvents>, id: string): seq<AgendaEvent>
  {
    if sws == [] then []
    else
      (if HasId(sws[0].eventsInTimeslot, id) then Others(sws[0].eventsInTimeslot, id) else [])
      + ConflictingFlat(sws[1..], id)
  }

  /** `x` shares with `id` some timeslot of the table. */
  ghost predicate SharesSlot(sws: seq<SlotEvents>, id: string, x: AgendaEvent)
  {
    exists k :: 0 <= k < |sws| && HasId(sws[k].eventsInTimeslot, id) &&
                x in EventsOf(sws[k].eventsInTimeslot)
  }

  lemma {:induction false} ConflictingFlatSpec(sws: seq<SlotEvents>, id: string)
    ensures forall x :: x in ConflictingFlat(sws, id) <==> x.id != id && SharesSlot(sws, id, x)
  {
    if sws != [] {
      ConflictingFlatSpec(sws[1..], id);
      OthersSpec(sws[0].eventsInTimeslot, id);
      assert forall k :: 1 <= k < |sws| ==> sws[k] == sws[1..][k - 1];
      forall x | SharesSlot(sws, id, x)
        ensures (HasId(sws[0].eventsInTimeslot, id) && x in EventsOf(sws[0].eventsInTimeslot))
                || SharesSlot(sws[1..], id, x)
      {
        var k :| 0 <= k < |sws| && HasId(sws[k].eventsInTimeslot, id) &&
                 x in EventsOf(sws[k].eventsInTimeslot);
        if k > 0 {
          assert sws[1..][k - 1] == sws[k];
        }
      }
    }
  }

  /** The reduce that keeps the first occurrence of every event. */
  function Dedupe(u: seq<AgendaEvent>, s: seq<AgendaEvent>): seq<AgendaEvent>
    decreases |s|
  {
    if s == [] then u
    else Dedupe(if s[0] in u then u else u + [s[0]], s[1..])
  }

  lemma {:induction false} DedupeSpec(u: seq<AgendaEvent>, s: seq<AgendaEvent>)
    ensures forall x :: x in Dedupe(u, s) <==> x in u || x in s
    ensures NoDuplicates(u) ==> NoDuplicates(Dedupe(u, s))
    decreases |s|
  {
    if s != [] {
      var u' := if s[0] in u then u else u + [s[0]];
      DedupeSpec(u', s[1..]);
      assert s == [s[0]] + s[1..];
    }
  }

  /** conflictingEvents: every event sharing a timeslot with `id`, once each,
      in order of first appearance. */
  function ConflictingEvents(sws: seq<SlotEvents>, id: string): seq<AgendaEvent>
  {
    Dedupe([], ConflictingFlat(sws, id))
  }

  /** The conflicting events are exactly the other events found in the
      timeslots of `id`, each listed once. */
  lemma ConflictingEventsSpec(sws: seq<SlotEvents>, id: string)
    ensures NoDuplicates(ConflictingEvents(sws, id))
    ensures forall x :: x in ConflictingEvents(sws, id) <==> x.id != id && SharesSlot(sws, id, x)
  {
    DedupeSpec([], ConflictingFlat(sws, id));
    ConflictingFlatSpec(sws, id);
  }

  // ---------------------------------------------------------------------
  // The layout walk

  /** The cursor carried from one event to the next. The source's `right` and
      `width` are also declared outside the loop, but both are assigned before
      they are read in every iteration, so they are per-step values here. */
  datatype Cursor = Cursor(left: int, newline: bool, conflictReducer: int)

  /** One pushed update: the identifier on the update's event and its insets. */
  datatype Update = Update(eventId: string, left: int, right: int)

  datatype Walk = Walk(cursor: Cursor, updates: seq<Update>)

  const START: Walk := Walk(Cursor(0, false, 0), [])

  function Min(a: int, b: int): int
  {
    if a < b then a else b
  }

  /** The forEach over conflicting events computing `shortestRight`. Because
      the `find` callback assigns `u.event.id = ce.id` instead of comparing,
      it stops at the first update whenever `ce.id` is a non-empty (truthy)
      string, after renaming that update; when `ce.id` is empty, or there is
      no update, `find` yields undefined and the pass throws. */
  function ShortestRight(conflicting: seq<AgendaEvent>, updates: seq<Update>, shortest: int)
    : Result<(int, seq<Update>), PackError>
    decreases |conflicting|
  {
    if conflicting == [] then Ok((shortest, updates))
    else
      var ce := conflicting[0];
      if ce.id == [] || updates == [] then Err(NewlineStartMissing)
      else
        var renamed := updates[0 := updates[0].(eventId := ce.id)];
        ShortestRight(conflicting[1..], renamed, Min(shortest, renamed[0].right))
  }

  /** The loop throws exactly when there is a conflicting event and either no
      update yet or an empty identifier among them; otherwise it yields the
      smaller of the start value and updates[0].right, and updates[0] now
      carries the identifier of the last conflicting event, with its insets
      and every other update untouched. */
  lemma {:induction false} ShortestRightSpec(conflicting: seq<AgendaEvent>, updates: seq<Update>, shortest: int)
    ensures var r := ShortestRight(conflicting, updates, shortest);
            && (r.Err? <==> conflicting != [] &&
                             (updates == [] || exists ce :: ce in conflicting && ce.id == []))
            && (r.Err? ==> r.error == NewlineStartMissing)
            && (r.Ok? && conflicting == [] ==> r.value == (shortest, updates))
            && (r.Ok? && conflicting != [] ==>
                  r.value == (Min(shortest, updates[0].right),
                              updates[0 := updates[0].(eventId := conflicting[|conflicting| - 1].id)]))
    decreases |conflicting|
  {
    if conflicting != [] {
      var ce := conflicting[0];
      if ce.id != [] && updates != [] {
        var renamed := updates[0 := updates[0].(eventId := ce.id)];
        ShortestRightSpec(conflicting[1..], renamed, Min(shortest, renamed[0].right));
        assert conflicting == [ce] + conflicting[1..];
        assert conflicting[1..] != [] ==>
                 conflicting[1..][|conflicting[1..]| - 1] == conflicting[|conflicting| - 1];
        assert forall l :: renamed[0 := renamed[0].(eventId := l)] == updates[0 := updates[0].(eventId := l)];
      }
    }
  }

  /** The loop with the lookup compared rather than assigned
      (`u.event.id === ce.id`): each conflicting event's own update is read
      and no update is renamed. */
  function ShortestRightById(conflicting: seq<AgendaEvent>, updates: seq<Update>, shortest: int)
    : Result<int, PackError>
    decreases |conflicting|
  {
    if conflicting == [] then Ok(shortest)
    else
      match FindUpdate(updates, conflicting[0].id)
      case None => Err(NewlineStartMissing)
      case Some(u) => ShortestRightById(conflicting[1..], updates, Min(shortest, u.right))
  }

  /** The compared lookup throws exactly when some conflicting event has no
      update, and otherwise yields the smallest of the start value and the
      right insets of the conflicting events' own updates. */
  lemma {:induction false} ShortestRightByIdSpec(conflicting: seq<AgendaEvent>, updates: seq<Update>, shortest: int)
    ensures var r := ShortestRightById(conflicting, updates, shortest);
            && (r.Err? <==> exists ce :: ce in conflicting && FindUpdate(updates, ce.id).None?)
            && (r.Ok? ==>
                  && r.value <= shortest
                  && (forall ce :: ce in conflicting ==>
                        FindUpdate(updates, ce.id).Some? && r.value <= FindUpdate(updates, ce.id).value.right)
                  && (r.value == shortest ||
                      exists ce :: ce in conflicting && FindUpdate(updates, ce.id).Some? &&
                                   r.value == FindUpdate(updates, ce.id).value.right))
    decreases |conflicting|
  {
    if conflicting != [] {
      var ce := conflicting[0];
      assert conflicting == [ce] + conflicting[1..];
      match FindUpdate(updates, ce.id)
      case None =>
      case Some(u) =>
        ShortestRightByIdSpec(conflicting[1..], updates, Min(shortest, u.right));
    }
  }

  /** The newline branch: restart `left` at the flipped right edge found by
      ShortestRight and remember how many conflicts were already laid out. */
  function NewlineStart(w: Walk, id: string, sws: seq<SlotEvents>): (r: Result<Walk, PackError>)
  {
    var conflicting := ConflictingEvents(sws, id);
    var (shortest, updates) :- ShortestRight(conflicting, w.updates, NO_RIGHT);
    Ok(Walk(Cursor(FULL - shortest, false, |conflicting|), updates))
  }

  lemma NewlineStartIs(w: Walk, id: string, sws: seq<SlotEvents>)
    ensures var found := ShortestRight(ConflictingEvents(sws, id), w.updates, NO_RIGHT);
            NewlineStart(w, id, sws) ==
              if found.Err? then Err(found.error)
              else Ok(Walk(Cursor(FULL - found.value.0, false, |ConflictingEvents(sws, id)|), found.value.1))
  {
  }

  /** The newline branch throws exactly when there is a conflicting event
      and no update yet or a conflicting event with an empty identifier.
      Otherwise `left` restarts at 100 - 999 when nothing conflicts, and at
      100 minus the right inset of updates[0] (or 100 - 999, if smaller)
      when something does; `conflictReducer` becomes the number of distinct
      conflicting events, and updates[0] is renamed to the last of them. */
  lemma NewlineStartSpec(w: Walk, id: string, sws: seq<SlotEvents>)
    ensures var c := ConflictingEvents(sws, id);
            var r := NewlineStart(w, id, sws);
            && (r.Err? <==> c != [] && (w.updates == [] || exists x :: x in c && x.id == []))
            && (r.Err? ==> r.error == NewlineStartMissing)
            && (r.Ok? && c == [] ==> r.value == Walk(Cursor(FULL - NO_RIGHT, false, 0), w.updates))
            && (r.Ok? && c != [] ==>
                  r.value == Walk(Cursor(FULL - Min(NO_RIGHT, w.updates[0].right), false, |c|),
                                  w.updates[0 := w.updates[0].(eventId := c[|c| - 1].id)]))
            && |c| == |multiset(c)|
  {
    var c := ConflictingEvents(sws, id);
    ShortestRightSpec(c, w.updates, NO_RIGHT);
    ConflictingEventsSpec(sws, id);
    NoDuplicatesCardinality(c);
  }

  lemma {:induction false} NoDuplicatesCardinality<T>(s: seq<T>)
    requires NoDuplicates(s)
    ensures |s| == |multiset(s)| == |set x | x in s|
  {
    if s != [] {
      var t := s[1..];
      assert s == [s[0]] + t;
      assert NoDuplicates(t) by {
        forall a, b | 0 <= a < b < |t|
          ensures t[a] != t[b]
        {
          assert t[a] == s[a + 1] && t[b] == s[b + 1];
        }
      }
      NoDuplicatesCardinality(t);
      forall k | 0 <= k < |t|
        ensures t[k] != s[0]
      {
        assert t[k] == s[k + 1];
      }
      assert s[0] !in t;
      assert (set x | x in s) == {s[0]} + (set x | x in t);
    }
  }

  /** roundToNearestHundreth(100 / divisor), in hundredths: the integer
      nearest to n / d, halves rounded up. */
  function RoundedQuotient(n: int, d: int): (q: int)
    requires d != 0
    ensures d > 0 ==> -d < 2 * (q * d - n) <= d
    ensures d < 0 ==> d <= 2 * (q * d - n) < -d
  {
    if d > 0 then
      var q := (2 * n + d) / (2 * d);
      assert 2 * n + d == q * (2 * d) + (2 * n + d) % (2 * d);
      assert q * (2 * d) == 2 * (q * d);
      q
    else
      var q := (-2 * n - d) / (-2 * d);
      assert -2 * n - d == q * (-2 * d) + (-2 * n - d) % (-2 * d);
      assert q * (-2 * d) == -2 * (q * d);
      q
  }

  /** One event's placement once its conflict count `count` is known. */
  function Place(w: Walk, id: string, count: int): Walk
  {
    var left, reducer := w.cursor.left, w.cursor.conflictReducer;
    if count == 0 then
      Walk(Cursor(0, false, reducer), w.updates + [Update(id, 0, 0)])
    else
      var divisor := count + 1 - reducer;
      if divisor == 0 then
        // 100 / 0 is Infinity: right becomes -Infinity and is clamped to 0,
        // and left + Infinity >= 100 starts a new line at 0.
        Walk(Cursor(0, true, reducer), w.updates + [Update(id, left, 0)])
      else
        var width := RoundedQuotient(FULL, divisor);
        var raw := FULL - left - width;
        var right := if raw < 0 then 0 else raw;
        var newline := w.cursor.newline || raw < 0;
        if left + width >= FULL then
          Walk(Cursor(0, true, reducer), w.updates + [Update(id, left, right)])
        else
          Walk(Cursor(left + width, newline, reducer), w.updates + [Update(id, left, right)])
  }

  /** One iteration of the forEach over eventsSortedByDuration. */
  function Step(w: Walk, e: Ranked, sws: seq<SlotEvents>, counted: seq<Ranked>): Result<Walk, PackError>
  {
    var w' :- if w.cursor.newline then NewlineStart(w, e.event.id, sws) else Ok(w);
    match FindCount(counted, e.event.id)
    case None => Err(ConflictCountMissing)
    case Some(c) => Ok(Place(w', e.event.id, c))
  }

  /** The walk over the first `n` sorted events. */
  function WalkPrefix(sorted: seq<Ranked>, n: nat, sws: seq<SlotEvents>, counted: seq<Ranked>)
    : Result<Walk, PackError>
    requires n <= |sorted|
  {
    if n == 0 then Ok(START)
    else
      var w :- WalkPrefix(sorted, n - 1, sws, counted);
      Step(w, sorted[n - 1], sws, counted)
  }

  /** The first update whose event carries `id`. */
  function FindUpdate(updates: seq<Update>, id: string): Option<Update>
  {
    if updates == [] then None
    else if updates[0].eventId == id then Some(updates[0])
    else FindUpdate(updates[1..], id)
  }

  /** The lookup yields an update carrying `id`, the first one, and fails only
      when none does. */
  lemma {:induction false} FindUpdateSpec(updates: seq<Update>, id: string)
    ensures FindUpdate(updates, id).Some? ==>
              exists k :: 0 <= k < |updates| && updates[k] == FindUpdate(updates, id).value &&
                          updates[k].eventId == id &&
                          forall j :: 0 <= j < k ==> updates[j].eventId != id
    ensures FindUpdate(updates, id).None? ==> forall u :: u in updates ==> u.eventId != id
  {
    if updates != [] && updates[0].eventId != id {
      FindUpdateSpec(updates[1..], id);
      assert updates == [updates[0]] + updates[1..];
      if FindUpdate(updates, id).Some? {
        var k :| 0 <= k < |updates| - 1 && updates[1..][k] == FindUpdate(updates, id).value &&
                 updates[1..][k].eventId == id &&
                 forall j :: 0 <= j < k ==> updates[1..][j].eventId != id;
        assert updates[k + 1] == updates[1..][k];
        forall j | 0 <= j < k + 1
          ensures updates[j].eventId != id
        {
          if j > 0 { assert updates[j] == updates[1..][j - 1]; }
        }
      }
    }
  }

  /** The final setEvents: every event takes the insets of the first update
      for its identifier, and 0 for a missing one. */
  function WriteBack(events: seq<AgendaEvent>, updates: seq<Update>): seq<AgendaEvent>
  {
    seq(|events|, i requires 0 <= i < |events| =>
      match FindUpdate(updates, events[i].id)
      case Some(u) => events[i].(left := u.left, right := u.right)
      case None => events[i].(left := 0, right := 0))
  }

  /** The write-back keeps the list's length, order and every field but the
      insets; an event takes the insets of the first update carrying its
      identifier, and 0/0 when no update carries it. */
  lemma WriteBackSpec(events: seq<AgendaEvent>, updates: seq<Update>)
    ensures var r := WriteBack(events, updates);
            && |r| == |events|
            && (forall i :: 0 <= i < |r| ==>
                  r[i].(left := events[i].left, right := events[i].right) == events[i])
            && (forall i, k :: 0 <= i < |r| && 0 <= k < |updates| && updates[k].eventId == events[i].id &&
                               (forall j :: 0 <= j < k ==> updates[j].eventId != events[i].id) ==>
                  r[i].left == updates[k].left && r[i].right == updates[k].right)
            && (forall i :: 0 <= i < |r| && (forall u :: u in updates ==> u.eventId != events[i].id) ==>
                  r[i].left == 0 && r[i].right == 0)
  {
    var r := WriteBack(events, updates);
    forall i | 0 <= i < |r|
      ensures forall k :: 0 <= k < |updates| && updates[k].eventId == events[i].id &&
                          (forall j :: 0 <= j < k ==> updates[j].eventId != events[i].id) ==>
                r[i].left == updates[k].left && r[i].right == updates[k].right
      ensures (forall u :: u in updates ==> u.eventId != events[i].id) ==> r[i].left == 0 && r[i].right == 0
    {
      FindUpdateSpec(updates, events[i].id);
    }
  }

  /** The complete pass as a value: the new event list, or the exception. */
  function Pack(events: seq<AgendaEvent>, slots: seq<Timeslot>): Result<seq<AgendaEvent>, PackError>
  {
    var sorted := EventsSortedByDuration(events);
    var sws := SlotsWithEvents(slots, sorted);
    var counted := EventsSortedByConflictCount(events, sws);
    var w :- WalkPrefix(sorted, |sorted|, sws, counted);
    Ok(WriteBack(events, w.updates))
  }

  lemma {:induction false} WalkErrorPersists(sorted: seq<Ranked>, n: nat, m: nat,
                                             sws: seq<SlotEvents>, counted: seq<Ranked>)
    requires n <= m <= |sorted|
    requires WalkPrefix(sorted, n, sws, counted).Err?
    ensures WalkPrefix(sorted, m, sws, counted) == WalkPrefix(sorted, n, sws, counted)
    decreases m - n
  {
    if n < m {
      WalkErrorPersists(sorted, n, m - 1, sws, counted);
      var prev := WalkPrefix(sorted, m - 1, sws, counted);
      assert WalkPrefix(sorted, m, sws, counted) == Err(prev.error);
    }
  }

  lemma WalkPrefixNext(sorted: seq<Ranked>, i: nat, sws: seq<SlotEvents>, counted: seq<Ranked>,
                       w: Walk, placed: Walk, count: int)
    requires i < |sorted| && WalkPrefix(sorted, i, sws, counted) == Ok(w)
    requires (if w.cursor.newline then NewlineStart(w, sorted[i].event.id, sws) else Ok(w)) == Ok(placed)
    requires FindCount(counted, sorted[i].event.id) == Some(count)
    ensures WalkPrefix(sorted, i + 1, sws, counted) == Ok(Place(placed, sorted[i].event.id, count))
  {
  }

  /** A placement keeps the earlier updates, pushes one update for the
      event with a non-negative right inset and a left inset of at most 100%,
      and leaves the cursor strictly left of 100%. A conflict-free event gets
      0/0 and resets the cursor to 0 with `newline` cleared. */
  lemma PlaceSpec(w: Walk, id: string, count: int)
    requires w.cursor.left <= FULL
    ensures var p := Place(w, id, count);
            var n := |w.updates|;
            && |p.updates| == n + 1 && p.updates[..n] == w.updates
            && p.updates[n].eventId == id
            && p.updates[n].right >= 0 && p.updates[n].left <= FULL
            && p.cursor.left < FULL
            && p.cursor.conflictReducer == w.cursor.conflictReducer
            && (count == 0 ==> p.updates[n] == Update(id, 0, 0) &&
                               p.cursor == Cursor(0, false, w.cursor.conflictReducer))
  {
    var p := Place(w, id, count);
    assert p.updates[..|w.updates|] == w.updates;
  }

  /** The updates pushed for the first n sorted events: one each, every one
      but the first still carrying its event's identifier, every right inset
      non-negative and every left inset at most 100%. */
  ghost predicate UpdatesShape(updates: seq<Update>, sorted: seq<Ranked>, n: nat)
  {
    && n <= |sorted| && |updates| == n
    && (forall k :: 1 <= k < n ==> updates[k].eventId == sorted[k].event.id)
    && (forall k :: 0 <= k < n ==> updates[k].right >= 0 && updates[k].left <= FULL)
  }

  lemma NewlineShape(w: Walk, id: string, sws: seq<SlotEvents>, sorted: seq<Ranked>, n: nat)
    requires UpdatesShape(w.updates, sorted, n)
    requires NewlineStart(w, id, sws).Ok?
    ensures var v := NewlineStart(w, id, sws).value;
            UpdatesShape(v.updates, sorted, n) && v.cursor.left <= FULL && v.cursor.conflictReducer >= 0
  {
    NewlineStartSpec(w, id, sws);
  }

  lemma PlaceShape(w: Walk, id: string, count: int, sorted: seq<Ranked>, n: nat)
    requires UpdatesShape(w.updates, sorted, n) && n < |sorted| && id == sorted[n].event.id
    requires w.cursor.left <= FULL && w.cursor.conflictReducer >= 0
    ensures var p := Place(w, id, count);
            UpdatesShape(p.updates, sorted, n + 1) && p.cursor.left < FULL && p.cursor.conflictReducer >= 0
  {
    PlaceSpec(w, id, count);
    var p := Place(w, id, count);
    forall k | 0 <= k < n
      ensures p.updates[k] == w.updates[k]
    {
      assert p.updates[..n][k] == p.updates[k];
    }
  }

  /** After n steps the walk has pushed exactly one update per event, in
      sorted order: every update but the first still carries its own event's
      identifier (the first may have been renamed by a newline branch). Every
      right inset is non-negative, every left inset at most 100%, and the
      cursor is strictly left of 100% with a non-negative reducer. */
  lemma {:induction false} WalkShape(sorted: seq<Ranked>, n: nat, sws: seq<SlotEvents>, counted: seq<Ranked>)
    requires n <= |sorted|
    requires WalkPrefix(sorted, n, sws, counted).Ok?
    ensures var w := WalkPrefix(sorted, n, sws, counted).value;
            && |w.updates| == n
            && (forall k :: 1 <= k < n ==> w.updates[k].eventId == sorted[k].event.id)
            && (forall k :: 0 <= k < n ==> w.updates[k].right >= 0 && w.updates[k].left <= FULL)
            && w.cursor.left < FULL
            && w.cursor.conflictReducer >= 0
            && (n == 0 ==> !w.cursor.newline)
  {
    if n > 0 {
      WalkShape(sorted, n - 1, sws, counted);
      var w := WalkPrefix(sorted, n - 1, sws, counted).value;
      var e := sorted[n - 1];
      assert UpdatesShape(w.updates, sorted, n - 1);
      var w' := if w.cursor.newline then NewlineStart(w, e.event.id, sws).value else w;
      if w.cursor.newline {
        NewlineShape(w, e.event.id, sws, sorted, n - 1);
      }
      var c := FindCount(counted, e.event.id).value;
      PlaceShape(w', e.event.id, c, sorted, n - 1);
      assert WalkPrefix(sorted, n, sws, counted) == Ok(Place(w', e.event.id, c));
    }
  }

  /** With every sorted event present in the conflict-count list, the only
      way the walk throws is the newline branch meeting a conflicting event
      with an empty identifier: the conflict-count throw never happens, and
      the newline branch never runs before the first update is pushed. */
  lemma {:induction false} WalkErrorCause(sorted: seq<Ranked>, n: nat, sws: seq<SlotEvents>, counted: seq<Ranked>)
    requires n <= |sorted|
    requires forall k :: 0 <= k < |sorted| ==> HasId(counted, sorted[k].event.id)
    ensures var r := WalkPrefix(sorted, n, sws, counted);
            r.Err? ==> r.error == NewlineStartMissing &&
                       exists k, x :: 0 <= k < n && x in ConflictingEvents(sws, sorted[k].event.id) && x.id == []
  {
    if n > 0 {
      WalkErrorCause(sorted, n - 1, sws, counted);
      var prev := WalkPrefix(sorted, n - 1, sws, counted);
      if prev.Ok? {
        WalkShape(sorted, n - 1, sws, counted);
        var w := prev.value;
        var e := sorted[n - 1];
        assert HasId(counted, e.event.id);
        FindCountSpec(counted, e.event.id);
        var c := FindCount(counted, e.event.id).value;
        if w.cursor.newline {
          var ns := NewlineStart(w, e.event.id, sws);
          NewlineStartSpec(w, e.event.id, sws);
          if ns.Err? {
            assert w.updates != [];
            var x :| x in ConflictingEvents(sws, e.event.id) && x.id == [];
            assert WalkPrefix(sorted, n, sws, counted) == Err(NewlineStartMissing);
            assert 0 <= n - 1 < n && x in ConflictingEvents(sws, sorted[n - 1].event.id) && x.id == [];
          } else {
            assert WalkPrefix(sorted, n, sws, counted) == Ok(Place(ns.value, e.event.id, c));
          }
        } else {
          assert WalkPrefix(sorted, n, sws, counted) == Ok(Place(w, e.event.id, c));
        }
      } else {
        assert WalkPrefix(sorted, n, sws, counted) == prev;
      }
    }
  }

  /** Every duration-sorted event is found in the conflict-count list. */
  lemma SortedIdsCounted(events: seq<AgendaEvent>, slots: seq<Timeslot>)
    ensures var sorted := EventsSortedByDuration(events);
            var counted := EventsSortedByConflictCount(events, SlotsWithEvents(slots, sorted));
            forall k :: 0 <= k < |sorted| ==> HasId(counted, sorted[k].event.id)
  {
    var sorted := EventsSortedByDuration(events);
    var sws := SlotsWithEvents(slots, sorted);
    var counted := EventsSortedByConflictCount(events, sws);
    SortedByDurationSpec(events);
    forall k | 0 <= k < |sorted|
      ensures HasId(counted, sorted[k].event.id)
    {
      assert sorted[k] in sorted;
      var j :| 0 <= j < |events| && events[j] == sorted[k].event;
      var x := CountRanked(events, sws)[j];
      assert x in multiset(counted);
      var m :| 0 <= m < |counted| && counted[m] == x;
    }
  }

  /** An element of a ranked list's events is the event of one of its entries. */
  lemma EventsOfMember(s: seq<Ranked>, x: AgendaEvent)
    requires x in EventsOf(s)
    ensures exists y :: y in s && y.event == x
  {
    EventsOfIndex(s);
    var k :| 0 <= k < |EventsOf(s)| && EventsOf(s)[k] == x;
    assert s[k] in s;
  }

  /** The conflicting events the newline branch looks at are events of the list. */
  lemma ConflictingAreEvents(events: seq<AgendaEvent>, slots: seq<Timeslot>, id: string)
    ensures var sorted := EventsSortedByDuration(events);
            forall x :: x in ConflictingEvents(SlotsWithEvents(slots, sorted), id) ==> x in events
  {
    var sorted := EventsSortedByDuration(events);
    var sws := SlotsWithEvents(slots, sorted);
    ConflictingEventsSpec(sws, id);
    SlotsWithEventsSpec(slots, sorted);
    SortedByDurationSpec(events);
    forall x | x in ConflictingEvents(sws, id)
      ensures x in events
    {
      var k :| 0 <= k < |sws| && HasId(sws[k].eventsInTimeslot, id) &&
               x in EventsOf(sws[k].eventsInTimeslot);
      assert sws[k] in sws;
      var date := sws[k].timeslot.date;
      EventsOfMember(sws[k].eventsInTimeslot, x);
      var y :| y in sws[k].eventsInTimeslot && y.event == x;
      ActiveAtSpec(sorted, date);
    }
  }

  /** The pass never throws "Unable to find event conflict count"; it throws
      only "Unable to determine starting point for new line", and only when
      some event has an empty identifier. */
  lemma PackErrors(events: seq<AgendaEvent>, slots: seq<Timeslot>)
    ensures Pack(events, slots) != Err(ConflictCountMissing)
    ensures Pack(events, slots).Err? ==>
              Pack(events, slots).error == NewlineStartMissing && exists e :: e in events && e.id == []
  {
    var sorted := EventsSortedByDuration(events);
    var sws := SlotsWithEvents(slots, sorted);
    var counted := EventsSortedByConflictCount(events, sws);
    SortedIdsCounted(events, slots);
    WalkErrorCause(sorted, |sorted|, sws, counted);
    if WalkPrefix(sorted, |sorted|, sws, counted).Err? {
      var k, x :| 0 <= k < |sorted| && x in ConflictingEvents(sws, sorted[k].event.id) && x.id == [];
      ConflictingAreEvents(events, slots, sorted[k].event.id);
    }
  }

  /** With non-empty identifiers the pass always yields a new event list. */
  lemma PackSucceeds(events: seq<AgendaEvent>, slots: seq<Timeslot>)
    requires forall e :: e in events ==> e.id != []
    ensures Pack(events, slots).Ok?
  {
    PackErrors(events, slots);
  }

  /** The new event list of a successful pass: same length and order, only
      the insets changed, every right inset non-negative and every left inset
      at most 100%. */
  lemma PackShape(events: seq<AgendaEvent>, slots: seq<Timeslot>)
    requires Pack(events, slots).Ok?
    ensures var r := Pack(events, slots).value;
            && |r| == |events|
            && (forall i :: 0 <= i < |r| ==>
                  r[i].(left := events[i].left, right := events[i].right) == events[i])
            && (forall i :: 0 <= i < |r| ==> r[i].right >= 0 && r[i].left <= FULL)
  {
    var sorted := EventsSortedByDuration(events);
    var sws := SlotsWithEvents(slots, sorted);
    var counted := EventsSortedByConflictCount(events, sws);
    WalkShape(sorted, |sorted|, sws, counted);
    var updates := WalkPrefix(sorted, |sorted|, sws, counted).value.updates;
    WriteBackSpec(events, updates);
    var r := WriteBack(events, updates);
    forall i | 0 <= i < |r|
      ensures r[i].right >= 0 && r[i].left <= FULL
    {
      FindUpdateSpec(updates, events[i].id);
    }
  }

  /** No two different events of the list are active at the date of the same timeslot. */
  ghost predicate PairwiseApart(events: seq<AgendaEvent>, slots: seq<Timeslot>)
  {
    forall i, j, t ::
      (0 <= i < |events| && 0 <= j < |events| && t in slots &&
       IsActive(events[i], t.date) && IsActive(events[j], t.date)) ==> i == j
  }

  /** Every event of the list is active at the date of some timeslot. */
  ghost predicate AllCovered(events: seq<AgendaEvent>, slots: seq<Timeslot>)
  {
    forall e :: e in events ==> exists t :: t in slots && IsActive(e, t.date)
  }

  lemma {:induction false} DistinctIdsNoDuplicates(s: seq<Ranked>)
    requires DistinctIds(s)
    ensures NoDuplicates(s)
  {
    forall i, j | 0 <= i < j < |s|
      ensures s[i] != s[j]
    {
      assert s[i].event.id != s[j].event.id;
    }
  }

  lemma SingleValued<T>(a: seq<T>, y: T)
    requires NoDuplicates(a)
    requires forall x :: x in a ==> x == y
    ensures |a| <= 1
  {
    NoDuplicatesCardinality(a);
    if a != [] {
      assert (set x | x in a) == {y};
    }
  }

  /** The duration-sorted list of events with unique identifiers has no
      two entries with the same identifier. */
  lemma SortedDistinct(events: seq<AgendaEvent>)
    requires UniqueIds(events)
    ensures DistinctIds(EventsSortedByDuration(events))
  {
    var d := DurationRanked(events);
    assert DistinctIds(d);
    PermutationKeepsDistinctIds(d, SortByRank(d));
  }

  /** An event that is active somewhere and never shares a timeslot has
      conflict count 0. */
  lemma ApartCountZero(events: seq<AgendaEvent>, slots: seq<Timeslot>, e: AgendaEvent)
    requires UniqueIds(events) && PairwiseApart(events, slots) && AllCovered(events, slots)
    requires e in events
    ensures ConflictCount(SlotsWithEvents(slots, EventsSortedByDuration(events)), e.id) == 0
  {
    var sorted := EventsSortedByDuration(events);
    var me := Ranked(e, DifferenceInMinutes(e.end, e.start));
    ConflictCountMeaning(events, slots, e);
    SortedOnlyEntry(events, e);
    SortedDistinct(events);
    DistinctIdsNoDuplicates(sorted);
    SortedByDurationSpec(events);
    var c := ConflictCount(SlotsWithEvents(slots, sorted), e.id);
    var t0 :| t0 in slots && IsActive(e, t0.date);
    var t :| t in slots && IsActive(e, t.date) && |ActiveAt(sorted, t.date)| - 1 == c;
    var a := ActiveAt(sorted, t.date);
    ActiveAtSpec(sorted, t.date);
    forall x | x in a
      ensures x == me
    {
      var i :| 0 <= i < |events| && events[i] == x.event;
      var j :| 0 <= j < |events| && events[j] == e;
      assert i == j;
    }
    SingleValued(a, me);
  }

  /** The walk over events whose conflict counts are all 0: every event is
      pushed with 0/0 and the cursor stays at 0, so the newline branch never runs. */
  lemma {:induction false} ApartWalk(sorted: seq<Ranked>, n: nat, sws: seq<SlotEvents>, counted: seq<Ranked>)
    requires n <= |sorted|
    requires forall k :: 0 <= k < |sorted| ==> FindCount(counted, sorted[k].event.id) == Some(0)
    ensures WalkPrefix(sorted, n, sws, counted).Ok?
    ensures var w := WalkPrefix(sorted, n, sws, counted).value;
            && w.cursor == Cursor(0, false, 0)
            && |w.updates| == n
            && forall k :: 0 <= k < n ==> w.updates[k] == Update(sorted[k].event.id, 0, 0)
  {
    if n > 0 {
      ApartWalk(sorted, n - 1, sws, counted);
      var w := WalkPrefix(sorted, n - 1, sws, counted).value;
      var id := sorted[n - 1].event.id;
      assert FindCount(counted, id) == Some(0);
      assert Step(w, sorted[n - 1], sws, counted) == Ok(Place(w, id, 0));
    }
  }

  /** Every sorted event of such a list gets conflict count 0 from the lookup. */
  lemma ApartCountsFound(events: seq<AgendaEvent>, slots: seq<Timeslot>)
    requires UniqueIds(events) && PairwiseApart(events, slots) && AllCovered(events, slots)
    ensures var sorted := EventsSortedByDuration(events);
            var counted := EventsSortedByConflictCount(events, SlotsWithEvents(slots, sorted));
            forall k :: 0 <= k < |sorted| ==> FindCount(counted, sorted[k].event.id) == Some(0)
  {
    var sorted := EventsSortedByDuration(events);
    var sws := SlotsWithEvents(slots, sorted);
    var counted := EventsSortedByConflictCount(events, sws);
    SortedIdsCounted(events, slots);
    forall k | 0 <= k < |sorted|
      ensures FindCount(counted, sorted[k].event.id) == Some(0)
    {
      FindCountSpec(counted, sorted[k].event.id);
      ApartCountFound(events, slots, sorted[k].event.id);
    }
  }

  lemma ApartCountFound(events: seq<AgendaEvent>, slots: seq<Timeslot>, id: string)
    requires UniqueIds(events) && PairwiseApart(events, slots) && AllCovered(events, slots)
    requires FindCount(EventsSortedByConflictCount(events, SlotsWithEvents(slots, EventsSortedByDuration(events))), id).Some?
    ensures FindCount(EventsSortedByConflictCount(events, SlotsWithEvents(slots, EventsSortedByDuration(events))), id) == Some(0)
  {
    var sws := SlotsWithEvents(slots, EventsSortedByDuration(events));
    var counted := EventsSortedByConflictCount(events, sws);
    FindCountSpec(counted, id);
    var m :| 0 <= m < |counted| && counted[m].event.id == id && counted[m].rank == FindCount(counted, id).value;
    assert counted[m] in multiset(CountRanked(events, sws));
    var j :| 0 <= j < |events| && CountRanked(events, sws)[j] == counted[m];
    ApartCountZero(events, slots, events[j]);
  }

  /** Events that never share a timeslot, each active in one, all take the
      full width: the pass succeeds and sets every left and right inset to 0. */
  lemma ApartFullWidth(events: seq<AgendaEvent>, slots: seq<Timeslot>)
    requires UniqueIds(events) && PairwiseApart(events, slots) && AllCovered(events, slots)
    ensures Pack(events, slots) ==
            Ok(seq(|events|, i requires 0 <= i < |events| => events[i].(left := 0, right := 0)))
  {
    var sorted := EventsSortedByDuration(events);
    var sws := SlotsWithEvents(slots, sorted);
    var counted := EventsSortedByConflictCount(events, sws);
    ApartCountsFound(events, slots);
    ApartWalk(sorted, |sorted|, sws, counted);
    var updates := WalkPrefix(sorted, |sorted|, sws, counted).value.updates;
    WriteBackZero(events, updates);
  }

  /** Updates that all carry 0/0 write 0/0 into every event. */
  lemma WriteBackZero(events: seq<AgendaEvent>, updates: seq<Update>)
    requires forall k :: 0 <= k < |updates| ==> updates[k].left == 0 && updates[k].right == 0
    ensures WriteBack(events, updates) ==
            seq(|events|, i requires 0 <= i < |events| => events[i].(left := 0, right := 0))
  {
    var r := WriteBack(events, updates);
    forall i | 0 <= i < |events|
      ensures r[i] == events[i].(left := 0, right := 0)
    {
      FindUpdateSpec(updates, events[i].id);
    }
  }

  /** The inner forEach of the newline branch, as a loop. */
  method FindShortestRight(conflictingEvents: seq<AgendaEvent>, updates: seq<Update>)
    returns (r: Result<(int, seq<Update>), PackError>)
    ensures r == ShortestRight(conflictingEvents, updates, NO_RIGHT)
  {
    var shortestRight := NO_RIGHT;
    var current := updates;
    var j := 0;
    while j < |conflictingEvents|
      invariant 0 <= j <= |conflictingEvents|
      invariant ShortestRight(conflictingEvents[j..], current, shortestRight) ==
                ShortestRight(conflictingEvents, updates, NO_RIGHT)
    {
      var ce := conflictingEvents[j];
      assert conflictingEvents[j..] == [ce] + conflictingEvents[j + 1..];
      if ce.id == [] || current == [] {
        return Err(NewlineStartMissing);
      }
      current := current[0 := current[0].(eventId := ce.id)];
      shortestRight := if shortestRight < current[0].right then shortestRight else current[0].right;
      j := j + 1;
    }
    assert conflictingEvents[j..] == [];
    r := Ok((shortestRight, current));
  }

  /** The placement part of one iteration: the width this event gets from
      its conflict count, its insets, and the advanced cursor. */
  method PlaceEvent(left0: int, newline0: bool, conflictReducer: int, updates0: seq<Update>,
                    id: string, count: int)
    returns (left: int, newline: bool, updates: seq<Update>)
    ensures Walk(Cursor(left, newline, conflictReducer), updates) ==
            Place(Walk(Cursor(left0, newline0, conflictReducer), updates0), id, count)
  {
    left, newline := left0, newline0;
    var right, width := 0, 0;
    var update;
    if count == 0 {
      left, right, width := 0, 0, 0;
      newline := false;
      update := Update(id, left, right);
    } else if count + 1 - conflictReducer == 0 {
      // width = 100 / 0 = Infinity, so right = -Infinity < 0
      right := 0;
      newline := true;
      update := Update(id, left, right);
      // left + Infinity >= 100
      left := 0;
    } else {
      width := RoundedQuotient(FULL, count + 1 - conflictReducer);
      right := FULL - left - width;
      if right < 0 {
        right := 0;
        newline := true;
      }
      update := Update(id, left, right);
      left := left + width;
      if left >= FULL {
        left := 0;
        newline := true;
      }
    }
    updates := updates0 + [update];
  }

  /** One iteration of the forEach: the newline branch when it is due, the
      conflict-count lookup and its exception, and the placement. */
  method StepEvent(left0: int, newline0: bool, reducer0: int, updates0: seq<Update>,
                   e: Ranked, sws: seq<SlotEvents>, counted: seq<Ranked>)
    returns (r: Result<Walk, PackError>)
    ensures r == Step(Walk(Cursor(left0, newline0, reducer0), updates0), e, sws, counted)
  {
    var left, newline, conflictReducer, updates := left0, newline0, reducer0, updates0;
    if newline {
      var conflictingEvents := ConflictingEvents(sws, e.event.id);
      var found := FindShortestRight(conflictingEvents, updates);
      NewlineStartIs(Walk(Cursor(left0, newline0, reducer0), updates0), e.event.id, sws);
      if found.Err? {
        return Err(found.error);
      }
      var shortestRight := found.value.0;
      updates := found.value.1;
      left := FULL - shortestRight;
      conflictReducer := |conflictingEvents|;
      newline := false;
    }
    var conflictCount := FindCount(counted, e.event.id);
    if conflictCount.None? {
      return Err(ConflictCountMissing);
    }
    left, newline, updates := PlaceEvent(left, newline, conflictReducer, updates, e.event.id, conflictCount.value);
    r := Ok(Walk(Cursor(left, newline, conflictReducer), updates));
  }

  /** calculateWidthPosition, with the timeslot table passed in and the new
      event list (or the exception) returned instead of set as state. */
  method CalculateWidthPosition(events: seq<AgendaEvent>, timeslots: seq<Timeslot>)
    returns (r: Result<seq<AgendaEvent>, PackError>)
    requires timeslots == [] || ValidIntervals(events)
    ensures r == Pack(events, timeslots)
  {
    var sorted := EventsSortedByDuration(events);
    var sws := SlotsWithEvents(timeslots, sorted);
    var counted := EventsSortedByConflictCount(events, sws);

    var left := 0;
    var newline := false;
    var conflictReducer := 0;
    var updates: seq<Update> := [];
    var i := 0;
    while i < |sorted|
      invariant 0 <= i <= |sorted|
      invariant WalkPrefix(sorted, i, sws, counted) == Ok(Walk(Cursor(left, newline, conflictReducer), updates))
    {
      var step := StepEvent(left, newline, conflictReducer, updates, sorted[i], sws, counted);
      if step.Err? {
        r := Err(step.error);
        WalkErrorPersists(sorted, i + 1, |sorted|, sws, counted);
        return;
      }
      left, newline := step.value.cursor.left, step.value.cursor.newline;
      conflictReducer, updates := step.value.cursor.conflictReducer, step.value.updates;
      i := i + 1;
    }
    r := Ok(WriteBack(events, updates));
  }
}
