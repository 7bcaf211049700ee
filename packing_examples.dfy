/** Concrete layouts worked out by the packing model. */
module PackingExamples {
  import opened PlannerTypes
  import opened Ranking
  import opened Packing

  function Ev(id: string, startHour: int, endHour: int): AgendaEvent
  {
    AgendaEvent(id, startHour * HOUR, endHour * HOUR, "", 0, 0)
  }

  function Slot(h: int): Timeslot
  {
    Timeslot(h, h * HOUR, 50.0 * (h as real), 50.0 * (h as real) + 50.0)
  }

  lemma ActiveAtPair(x: Ranked, y: Ranked, d: Time)
    ensures ActiveAt([x, y], d) ==
            (if IsActive(x.event, d) then [x] else []) + (if IsActive(y.event, d) then [y] else [])
  {
    assert [x, y][1..] == [y];
    assert [y][1..] == [];
    var t := if IsActive(y.event, d) then [y] else [];
    assert ActiveAt([y], d) == t + [];
    assert t + [] == t;
  }

  const A1: AgendaEvent := Ev("1", 3, 6)
  const A2: AgendaEvent := Ev("2", 2, 4)
  const SLOTS_A: seq<Timeslot> := [Slot(2), Slot(3), Slot(4), Slot(5)]

  lemma SortedA()
    ensures EventsSortedByDuration([A1, A2]) == [Ranked(A1, 180), Ranked(A2, 120)]
  {
    assert DurationRanked([A1, A2]) == [Ranked(A1, 180), Ranked(A2, 120)];
    assert SortByRank([Ranked(A2, 120)]) == [Ranked(A2, 120)];
  }

  lemma SlotsCons(t: Timeslot, rest: seq<Timeslot>, sorted: seq<Ranked>)
    ensures SlotsWithEvents([t] + rest, sorted) ==
            (if |ActiveAt(sorted, t.date)| > 0 then [SlotEvents(t, ActiveAt(sorted, t.date))] else [])
            + SlotsWithEvents(rest, sorted)
  {
    assert ([t] + rest)[1..] == rest;
  }

  const RA1: Ranked := Ranked(A1, 180)
  const RA2: Ranked := Ranked(A2, 120)

  lemma ActiveA()
    ensures ActiveAt([RA1, RA2], Slot(2).date) == [RA2]
    ensures ActiveAt([RA1, RA2], Slot(3).date) == [RA1, RA2]
    ensures ActiveAt([RA1, RA2], Slot(4).date) == [RA1]
    ensures ActiveAt([RA1, RA2], Slot(5).date) == [RA1]
  {
    ActiveAtPair(RA1, RA2, 2 * HOUR);
    ActiveAtPair(RA1, RA2, 3 * HOUR);
    ActiveAtPair(RA1, RA2, 4 * HOUR);
    ActiveAtPair(RA1, RA2, 5 * HOUR);
  }

  lemma SlotsA()
    ensures SlotsWithEvents(SLOTS_A, [RA1, RA2]) ==
            [SlotEvents(Slot(2), [RA2]), SlotEvents(Slot(3), [RA1, RA2]),
             SlotEvents(Slot(4), [RA1]), SlotEvents(Slot(5), [RA1])]
  {
    var sorted := [RA1, RA2];
    ActiveA();
    var s5 := SlotsWithEvents([Slot(5)], sorted);
    assert s5 == [SlotEvents(Slot(5), [RA1])] by {
      SlotsCons(Slot(5), [], sorted);
      assert [Slot(5)] == [Slot(5)] + [];
    }
    var s4 := SlotsWithEvents([Slot(4), Slot(5)], sorted);
    assert s4 == [SlotEvents(Slot(4), [RA1])] + s5 by {
      SlotsCons(Slot(4), [Slot(5)], sorted);
      assert [Slot(4), Slot(5)] == [Slot(4)] + [Slot(5)];
    }
    var s3 := SlotsWithEvents([Slot(3), Slot(4), Slot(5)], sorted);
    assert s3 == [SlotEvents(Slot(3), [RA1, RA2])] + s4 by {
      SlotsCons(Slot(3), [Slot(4), Slot(5)], sorted);
      assert [Slot(3), Slot(4), Slot(5)] == [Slot(3)] + [Slot(4), Slot(5)];
    }
    assert SlotsWithEvents(SLOTS_A, sorted) == [SlotEvents(Slot(2), [RA2])] + s3 by {
      SlotsCons(Slot(2), [Slot(3), Slot(4), Slot(5)], sorted);
      assert SLOTS_A == [Slot(2)] + [Slot(3), Slot(4), Slot(5)];
    }
  }

  const SWS_A: seq<SlotEvents> :=
    [SlotEvents(Slot(2), [RA2]), SlotEvents(Slot(3), [RA1, RA2]),
     SlotEvents(Slot(4), [RA1]), SlotEvents(Slot(5), [RA1])]

  lemma MaxOccupancyCons(x: SlotEvents, rest: seq<SlotEvents>, id: string)
    ensures MaxOccupancy([x] + rest, id) ==
            var here := if HasId(x.eventsInTimeslot, id) then |x.eventsInTimeslot| else 0;
            if MaxOccupancy(rest, id) > here then MaxOccupancy(rest, id) else here
  {
    assert ([x] + rest)[1..] == rest;
  }

  lemma CountsA()
    ensures ConflictCount(SWS_A, "1") == 1 && ConflictCount(SWS_A, "2") == 1
  {
    assert HasId([RA1, RA2], "1") by { assert [RA1, RA2][0].event.id == "1"; }
    assert HasId([RA1, RA2], "2") by { assert [RA1, RA2][1].event.id == "2"; }
    assert HasId([RA1], "1") by { assert [RA1][0].event.id == "1"; }
    assert HasId([RA2], "2") by { assert [RA2][0].event.id == "2"; }
    assert !HasId([RA1], "2") && !HasId([RA2], "1");
    var s := SWS_A;
    MaxOccupancyCons(s[0], s[1..], "1");
    MaxOccupancyCons(s[0], s[1..], "2");
    MaxOccupancyCons(s[1], s[2..], "1");
    MaxOccupancyCons(s[1], s[2..], "2");
    MaxOccupancyCons(s[2], s[3..], "1");
    MaxOccupancyCons(s[2], s[3..], "2");
    MaxOccupancyCons(s[3], [], "1");
    MaxOccupancyCons(s[3], [], "2");
    assert s == [s[0]] + s[1..] && s[1..] == [s[1]] + s[2..] && s[2..] == [s[2]] + s[3..];
    assert s[3..] == [s[3]] + [];
  }

  lemma CountedA()
    ensures EventsSortedByConflictCount([A1, A2], SWS_A) == [Ranked(A1, 1), Ranked(A2, 1)]
  {
    CountsA();
    assert CountRanked([A1, A2], SWS_A) == [Ranked(A1, 1), Ranked(A2, 1)];
    assert !IdLess("2", "1");
    assert SortByRank([Ranked(A2, 1)]) == [Ranked(A2, 1)];
  }

  lemma WalkA()
    ensures WalkPrefix([RA1, RA2], 2, SWS_A, [Ranked(A1, 1), Ranked(A2, 1)]) ==
            Ok(Walk(Cursor(0, true, 0), [Update("1", 0, 5000), Update("2", 5000, 0)]))
  {
    var sorted, counted := [RA1, RA2], [Ranked(A1, 1), Ranked(A2, 1)];
    assert FindCount(counted, "1") == Some(1);
    assert FindCount(counted, "2") == Some(1) by { assert counted[1..] == [Ranked(A2, 1)]; }
    assert RoundedQuotient(FULL, 2) == 5000;
    var w1 := Walk(Cursor(5000, false, 0), [Update("1", 0, 5000)]);
    assert Place(START, "1", 1) == w1;
    WalkPrefixNext(sorted, 0, SWS_A, counted, START, START, 1);
    assert Place(w1, "2", 1) == Walk(Cursor(0, true, 0), [Update("1", 0, 5000), Update("2", 5000, 0)]);
    WalkPrefixNext(sorted, 1, SWS_A, counted, w1, w1, 1);
  }

  /** The pass as the composition of its stages. */
  lemma PackFrom(events: seq<AgendaEvent>, slots: seq<Timeslot>, sorted: seq<Ranked>,
                 sws: seq<SlotEvents>, counted: seq<Ranked>, w: Walk)
    requires EventsSortedByDuration(events) == sorted
    requires SlotsWithEvents(slots, sorted) == sws
    requires EventsSortedByConflictCount(events, sws) == counted
    requires WalkPrefix(sorted, |sorted|, sws, counted) == Ok(w)
    ensures Pack(events, slots) == Ok(WriteBack(events, w.updates))
  {
  }

  /** When the i-th update belongs to the i-th event and the identifiers are
      distinct, every event takes the insets of its own update. */
  lemma WriteBackAligned(events: seq<AgendaEvent>, updates: seq<Update>)
    requires |updates| == |events| && UniqueIds(events)
    requires forall i :: 0 <= i < |events| ==> updates[i].eventId == events[i].id
    ensures WriteBack(events, updates) ==
            seq(|events|, i requires 0 <= i < |events| =>
              events[i].(left := updates[i].left, right := updates[i].right))
  {
    WriteBackSpec(events, updates);
  }

  lemma WriteBackPair(x: AgendaEvent, y: AgendaEvent, u: Update, v: Update)
    requires u.eventId == x.id && v.eventId == y.id && u.eventId != v.eventId
    ensures WriteBack([x, y], [u, v]) == [x.(left := u.left, right := u.right), y.(left := v.left, right := v.right)]
  {
    assert [u, v][1..] == [v];
    assert FindUpdate([u, v], y.id) == Some(v);
  }

  /** [3:00,6:00) and [2:00,4:00) share the 3:00 slot: the longer one takes
      the left half and the shorter one the right half. */
  lemma OverlapSplitsInHalves()
    ensures Pack([A1, A2], SLOTS_A) == Ok([A1.(left := 0, right := 5000), A2.(left := 5000, right := 0)])
  {
    SortedA();
    SlotsA();
    CountedA();
    WalkA();
    PackFrom([A1, A2], SLOTS_A, [RA1, RA2], SWS_A, [Ranked(A1, 1), Ranked(A2, 1)],
             Walk(Cursor(0, true, 0), [Update("1", 0, 5000), Update("2", 5000, 0)]));
    WriteBackPair(A1, A2, Update("1", 0, 5000), Update("2", 5000, 0));
  }

  /** The newline lookup as written, over the updates of the overlap example,
      for an event conflicting only with event 2: it reads the right inset of
      event 1's update and renames that update to 2. In this update list,
      which shares nothing with the events, the write-back then finds no
      update for event 1. Compared by identifier, the lookup reads event 2's
      own right inset. */
  lemma NewlineLookupRenames()
    ensures ShortestRight([A2], [Update("1", 0, 5000), Update("2", 5000, 0)], NO_RIGHT) ==
            Ok((5000, [Update("2", 0, 5000), Update("2", 5000, 0)]))
    ensures WriteBack([A1, A2], [Update("2", 0, 5000), Update("2", 5000, 0)]) ==
            [A1.(left := 0, right := 0), A2.(left := 0, right := 5000)]
    ensures ShortestRightById([A2], [Update("1", 0, 5000), Update("2", 5000, 0)], NO_RIGHT) == Ok(0)
  {
    var updates := [Update("1", 0, 5000), Update("2", 5000, 0)];
    var renamed := updates[0 := updates[0].(eventId := A2.id)];
    assert renamed == [Update("2", 0, 5000), Update("2", 5000, 0)];
    assert [A2][1..] == [];
    assert ShortestRight([A2], updates, NO_RIGHT) == ShortestRight([], renamed, Min(NO_RIGHT, 5000));
  }

  lemma CountedEmpty()
    ensures EventsSortedByConflictCount([A1, A2], []) == [Ranked(A1, -1), Ranked(A2, -1)]
  {
    var counted := [Ranked(A1, -1), Ranked(A2, -1)];
    assert CountRanked([A1, A2], []) == counted;
    assert !IdLess("2", "1");
    assert SortByRank([Ranked(A2, -1)]) == [Ranked(A2, -1)];
  }

  lemma WalkEmpty()
    ensures WalkPrefix([RA1, RA2], 2, [], [Ranked(A1, -1), Ranked(A2, -1)]) ==
            Ok(Walk(Cursor(0, true, 0), [Update("1", 0, 0), Update("2", -89900, 0)]))
  {
    var sorted, counted := [RA1, RA2], [Ranked(A1, -1), Ranked(A2, -1)];
    assert FindCount(counted, "1") == Some(-1);
    assert FindCount(counted, "2") == Some(-1) by { assert counted[1..] == [Ranked(A2, -1)]; }
    var w1 := Walk(Cursor(0, true, 0), [Update("1", 0, 0)]);
    assert Place(START, "1", -1) == w1;
    WalkPrefixNext(sorted, 0, [], counted, START, START, -1);
    assert ConflictingEvents([], "2") == [];
    var w1' := Walk(Cursor(-89900, false, 0), w1.updates);
    assert NewlineStart(w1, "2", []) == Ok(w1');
    assert Place(w1', "2", -1) == Walk(Cursor(0, true, 0), [Update("1", 0, 0), Update("2", -89900, 0)]);
    WalkPrefixNext(sorted, 1, [], counted, w1, w1', -1);
  }

  /** With an empty timeslot table every conflict count is -1, so each
      division is by zero: the first event keeps left 0 with right 0, and the
      newline branch, finding no conflicting events, restarts the second at
      100 - 999 = -899%. */
  lemma EmptyTableShiftsOffscreen()
    ensures Pack([A1, A2], []) == Ok([A1.(left := 0, right := 0), A2.(left := -89900, right := 0)])
  {
    SortedA();
    assert SlotsWithEvents([], [RA1, RA2]) == [];
    CountedEmpty();
    WalkEmpty();
    PackFrom([A1, A2], [], [RA1, RA2], [], [Ranked(A1, -1), Ranked(A2, -1)],
             Walk(Cursor(0, true, 0), [Update("1", 0, 0), Update("2", -89900, 0)]));
    WriteBackPair(A1, A2, Update("1", 0, 0), Update("2", -89900, 0));
  }

  const C1: AgendaEvent := AgendaEvent("1", 2 * HOUR + 900, 2 * HOUR + 2700, "", 0, 0)
  const C2: AgendaEvent := AgendaEvent("2", 3 * HOUR + 900, 3 * HOUR + 2700, "", 0, 0)
  const RC1: Ranked := Ranked(C1, 30)
  const RC2: Ranked := Ranked(C2, 30)

  lemma SortedC()
    ensures EventsSortedByDuration([C1, C2]) == [RC1, RC2]
  {
    assert DurationRanked([C1, C2]) == [RC1, RC2];
    assert IdLess("1", "2");
    assert SortByRank([RC2]) == [RC2];
  }

  /** [2:15,2:45) and [3:15,3:45) hold none of the hourly dates. */
  lemma InactiveC(h: int)
    requires 2 <= h <= 5
    ensures !IsActive(C1, Slot(h).date) && !IsActive(C2, Slot(h).date)
    ensures ActiveAt([RC1, RC2], Slot(h).date) == []
  {
    ActiveAtPair(RC1, RC2, Slot(h).date);
  }

  lemma UncoveredC()
    ensures forall t :: t in SLOTS_A ==> !IsActive(C1, t.date) && !IsActive(C2, t.date)
    ensures SlotsWithEvents(SLOTS_A, [RC1, RC2]) == []
  {
    var sorted := [RC1, RC2];
    InactiveC(2);
    InactiveC(3);
    InactiveC(4);
    InactiveC(5);
    assert SlotsWithEvents([Slot(5)], sorted) == [] by {
      SlotsCons(Slot(5), [], sorted);
      assert [Slot(5)] == [Slot(5)] + [];
    }
    assert SlotsWithEvents([Slot(4), Slot(5)], sorted) == [] by {
      SlotsCons(Slot(4), [Slot(5)], sorted);
      assert [Slot(4), Slot(5)] == [Slot(4)] + [Slot(5)];
    }
    assert SlotsWithEvents([Slot(3), Slot(4), Slot(5)], sorted) == [] by {
      SlotsCons(Slot(3), [Slot(4), Slot(5)], sorted);
      assert [Slot(3), Slot(4), Slot(5)] == [Slot(3)] + [Slot(4), Slot(5)];
    }
    SlotsCons(Slot(2), [Slot(3), Slot(4), Slot(5)], sorted);
    assert SLOTS_A == [Slot(2)] + [Slot(3), Slot(4), Slot(5)];
  }

  lemma CountedC()
    ensures EventsSortedByConflictCount([C1, C2], []) == [Ranked(C1, -1), Ranked(C2, -1)]
  {
    var counted := [Ranked(C1, -1), Ranked(C2, -1)];
    assert CountRanked([C1, C2], []) == counted;
    assert SortByRank([Ranked(C2, -1)]) == [Ranked(C2, -1)];
  }

  lemma WalkUncoveredC()
    ensures WalkPrefix([RC1, RC2], 2, [], [Ranked(C1, -1), Ranked(C2, -1)]) ==
            Ok(Walk(Cursor(0, true, 0), [Update("1", 0, 0), Update("2", -89900, 0)]))
  {
    var sorted, counted := [RC1, RC2], [Ranked(C1, -1), Ranked(C2, -1)];
    assert FindCount(counted, "1") == Some(-1);
    assert FindCount(counted, "2") == Some(-1) by { assert counted[1..] == [Ranked(C2, -1)]; }
    var w1 := Walk(Cursor(0, true, 0), [Update("1", 0, 0)]);
    assert Place(START, "1", -1) == w1;
    WalkPrefixNext(sorted, 0, [], counted, START, START, -1);
    assert ConflictingEvents([], "2") == [];
    var w1' := Walk(Cursor(-89900, false, 0), w1.updates);
    assert NewlineStart(w1, "2", []) == Ok(w1');
    assert Place(w1', "2", -1) == Walk(Cursor(0, true, 0), [Update("1", 0, 0), Update("2", -89900, 0)]);
    WalkPrefixNext(sorted, 1, [], counted, w1, w1', -1);
  }

  /** Two half-hour events, each between two rows of the table, never share
      a timeslot, yet neither is active in any, so both counts are -1: the
      first takes the division by zero and gets 0/0, and the second, in the
      newline branch with no conflicting event, restarts at 100 - 999 =
      -899%. Full width for events that are apart needs every event to be
      active in some timeslot, as `ApartFullWidth` requires. */
  lemma ApartUncoveredOffscreen()
    ensures PairwiseApart([C1, C2], SLOTS_A) && !AllCovered([C1, C2], SLOTS_A)
    ensures Pack([C1, C2], SLOTS_A) == Ok([C1.(left := 0, right := 0), C2.(left := -89900, right := 0)])
  {
    SortedC();
    UncoveredC();
    assert C1 in [C1, C2];
    CountedC();
    WalkUncoveredC();
    PackFrom([C1, C2], SLOTS_A, [RC1, RC2], [], [Ranked(C1, -1), Ranked(C2, -1)],
             Walk(Cursor(0, true, 0), [Update("1", 0, 0), Update("2", -89900, 0)]));
    WriteBackPair(C1, C2, Update("1", 0, 0), Update("2", -89900, 0));
  }

  const B1: AgendaEvent := Ev("a", 2, 4)
  const B2: AgendaEvent := Ev("b", 4, 6)

  /** [2:00,4:00) and [4:00,6:00) touch but are never active at the same
      instant, so both take the full width. */
  lemma BackToBackFullWidth()
    ensures Pack([B1, B2], SLOTS_A) == Ok([B1.(left := 0, right := 0), B2.(left := 0, right := 0)])
  {
    var events := [B1, B2];
    NotActiveAtEnd(B1, B2);
    assert PairwiseApart(events, SLOTS_A);
    assert Slot(2) in SLOTS_A && IsActive(B1, Slot(2).date);
    assert Slot(4) in SLOTS_A && IsActive(B2, Slot(4).date);
    assert AllCovered(events, SLOTS_A);
    ApartFullWidth(events, SLOTS_A);
    var r := seq(|events|, i requires 0 <= i < |events| => events[i].(left := 0, right := 0));
    assert r == [B1.(left := 0, right := 0), B2.(left := 0, right := 0)];
  }
}
