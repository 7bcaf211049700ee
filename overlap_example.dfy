/** Three events over the timeslots 0:00, 1:00 and 2:00 for which the pass
    gives two events that are active at the same time overlapping spans:
    the packing does not keep concurrent events apart. */
module OverlapExample {
  import opened PlannerTypes
  import opened Ranking
  import opened Packing
  import opened PackingExamples
  import opened SeedExample

  const C1: AgendaEvent := Ev("1", 0, 2)
  const C2: AgendaEvent := Ev("2", 1, 3)
  const C3: AgendaEvent := Ev("3", 2, 3)
  const EVENTS_C: seq<AgendaEvent> := [C1, C2, C3]
  const SLOTS_C: seq<Timeslot> := [Slot(0), Slot(1), Slot(2)]

  const RC1: Ranked := Ranked(C1, 120)
  const RC2: Ranked := Ranked(C2, 120)
  const RC3: Ranked := Ranked(C3, 60)
  const SORTED_C: seq<Ranked> := [RC1, RC2, RC3]

  const SWS_C: seq<SlotEvents> :=
    [SlotEvents(Slot(0), [RC1]), SlotEvents(Slot(1), [RC1, RC2]), SlotEvents(Slot(2), [RC2, RC3])]
  const COUNTED_C: seq<Ranked> := [Ranked(C1, 1), Ranked(C2, 1), Ranked(C3, 1)]

  /** The updates after the walk: the newline lookup for event 3 has renamed
      event 1's update to 2. */
  const UPDATES_C: seq<Update> := [Update("2", 0, 5000), Update("2", 5000, 0), Update("3", 5000, 0)]

  /** The horizontal spans [left, 100% - right] of two events intersect. */
  predicate SpansOverlap(a: AgendaEvent, b: AgendaEvent)
  {
    a.left < FULL - b.right && b.left < FULL - a.right
  }

  lemma SortedC()
    ensures EventsSortedByDuration(EVENTS_C) == SORTED_C
  {
    assert DifferenceInMinutes(C1.end, C1.start) == 120;
    assert DifferenceInMinutes(C2.end, C2.start) == 120;
    assert DifferenceInMinutes(C3.end, C3.start) == 60;
    assert DurationRanked(EVENTS_C) == SORTED_C;
    assert !IdLess("2", "1");
    SortByRankKeepsOrdered(SORTED_C);
  }

  lemma ActiveAtThree(a: Ranked, b: Ranked, c: Ranked, d: Time)
    ensures ActiveAt([a, b, c], d) == Keep(a, d) + (Keep(b, d) + Keep(c, d))
  {
    ActiveAtCons(c, [], d);
    assert ActiveAt([c], d) == Keep(c, d) by {
      assert [c] == [c] + [];
      assert Keep(c, d) + [] == Keep(c, d);
    }
    ActiveAtCons(b, [c], d);
    assert [b, c] == [b] + [c];
    ActiveAtCons(a, [b, c], d);
    assert [a, b, c] == [a] + [b, c];
  }

  lemma SlotsC()
    ensures SlotsWithEvents(SLOTS_C, SORTED_C) == SWS_C
  {
    var sorted := SORTED_C;
    ActiveAtThree(RC1, RC2, RC3, 0);
    ActiveAtThree(RC1, RC2, RC3, HOUR);
    ActiveAtThree(RC1, RC2, RC3, 2 * HOUR);
    assert ActiveAt(sorted, 0) == [RC1];
    assert ActiveAt(sorted, HOUR) == [RC1, RC2];
    assert ActiveAt(sorted, 2 * HOUR) == [RC2, RC3];
    var s2 := SlotsWithEvents([Slot(2)], sorted);
    assert s2 == [SWS_C[2]] by {
      SlotsCons(Slot(2), [], sorted);
      assert [Slot(2)] == [Slot(2)] + [];
    }
    var s1 := SlotsWithEvents([Slot(1), Slot(2)], sorted);
    assert s1 == [SWS_C[1]] + s2 by {
      SlotsCons(Slot(1), [Slot(2)], sorted);
      assert [Slot(1), Slot(2)] == [Slot(1)] + [Slot(2)];
    }
    assert SlotsWithEvents(SLOTS_C, sorted) == [SWS_C[0]] + s1 by {
      SlotsCons(Slot(0), [Slot(1), Slot(2)], sorted);
      assert SLOTS_C == [Slot(0)] + [Slot(1), Slot(2)];
    }
  }

  /** Every event shares a slot with one other event and no more. */
  lemma CountsC()
    ensures ConflictCount(SWS_C, "1") == 1 && ConflictCount(SWS_C, "2") == 1 && ConflictCount(SWS_C, "3") == 1
  {
    assert HasId([RC1], "1") by { assert [RC1][0].event.id == "1"; }
    assert HasId([RC1, RC2], "1") by { assert [RC1, RC2][0].event.id == "1"; }
    assert HasId([RC1, RC2], "2") by { assert [RC1, RC2][1].event.id == "2"; }
    assert HasId([RC2, RC3], "2") by { assert [RC2, RC3][0].event.id == "2"; }
    assert HasId([RC2, RC3], "3") by { assert [RC2, RC3][1].event.id == "3"; }
    assert !HasId([RC1], "2") && !HasId([RC1], "3") && !HasId([RC1, RC2], "3") && !HasId([RC2, RC3], "1");
    var s := SWS_C;
    MaxOccupancyCons(s[0], s[1..], "1");
    MaxOccupancyCons(s[0], s[1..], "2");
    MaxOccupancyCons(s[0], s[1..], "3");
    MaxOccupancyCons(s[1], s[2..], "1");
    MaxOccupancyCons(s[1], s[2..], "2");
    MaxOccupancyCons(s[1], s[2..], "3");
    MaxOccupancyCons(s[2], [], "1");
    MaxOccupancyCons(s[2], [], "2");
    MaxOccupancyCons(s[2], [], "3");
    assert s == [s[0]] + s[1..] && s[1..] == [s[1]] + s[2..] && s[2..] == [s[2]] + [];
  }

  lemma CountedC()
    ensures EventsSortedByConflictCount(EVENTS_C, SWS_C) == COUNTED_C
  {
    CountsC();
    CountRankedOf(EVENTS_C, SWS_C, COUNTED_C);
    assert !IdLess("2", "1") && !IdLess("3", "2");
    SortByRankKeepsOrdered(COUNTED_C);
  }

  lemma FindCountsC()
    ensures FindCount(COUNTED_C, "1") == Some(1) && FindCount(COUNTED_C, "2") == Some(1)
    ensures FindCount(COUNTED_C, "3") == Some(1)
  {
    var c := COUNTED_C;
    FindCountCons(c[0], c[1..], "2");
    FindCountCons(c[0], c[1..], "3");
    FindCountCons(c[1], c[2..], "3");
    assert c == [c[0]] + c[1..] && c[1..] == [c[1]] + c[2..];
  }

  /** Event 3 conflicts with event 2 only. */
  lemma ConflictingC()
    ensures ConflictingEvents(SWS_C, "3") == [C2]
  {
    var s := SWS_C;
    assert Others([RC3], "3") == [] by {
      assert [RC3][1..] == [];
      assert Others([RC3], "3") == [] + Others([], "3");
    }
    assert Others([RC2, RC3], "3") == [C2] by {
      assert [RC2, RC3][1..] == [RC3];
      assert Others([RC2, RC3], "3") == [C2] + Others([RC3], "3");
    }
    assert !HasId([RC1], "3") && !HasId([RC1, RC2], "3");
    assert HasId([RC2, RC3], "3") by { assert [RC2, RC3][1].event.id == "3"; }
    assert s[1..] == [s[1], s[2]] && s[1..][1..] == [s[2]] && [s[2]][1..] == [];
    assert ConflictingFlat([s[2]], "3") == [C2] by {
      assert ConflictingFlat([s[2]], "3") == Others([RC2, RC3], "3") + ConflictingFlat([], "3");
    }
    assert ConflictingFlat([s[1], s[2]], "3") == [C2] by {
      assert ConflictingFlat([s[1], s[2]], "3") == [] + ConflictingFlat([s[2]], "3");
    }
    assert ConflictingFlat(s, "3") == [] + ConflictingFlat(s[1..], "3");
    assert Dedupe([], [C2]) == Dedupe([C2], []) by { assert [C2][1..] == []; }
  }

  /** The first two events fill the line with halves, so the third starts
      on a new line; its lookup reads and renames event 1's update. */
  lemma WalkC()
    ensures WalkPrefix(SORTED_C, 3, SWS_C, COUNTED_C) == Ok(Walk(Cursor(0, true, 1), UPDATES_C))
  {
    var sorted, sws, counted := SORTED_C, SWS_C, COUNTED_C;
    FindCountsC();
    assert RoundedQuotient(FULL, 2) == 5000;
    assert RoundedQuotient(FULL, 1) == FULL;
    var w1 := Walk(Cursor(5000, false, 0), [Update("1", 0, 5000)]);
    assert Place(START, "1", 1) == w1;
    WalkPrefixNext(sorted, 0, sws, counted, START, START, 1);
    var w2 := Walk(Cursor(0, true, 0), [Update("1", 0, 5000), Update("2", 5000, 0)]);
    assert Place(w1, "2", 1) == w2;
    WalkPrefixNext(sorted, 1, sws, counted, w1, w1, 1);
    ConflictingC();
    var renamed := w2.updates[0 := w2.updates[0].(eventId := C2.id)];
    assert renamed == [Update("2", 0, 5000), Update("2", 5000, 0)];
    assert ShortestRight([C2], w2.updates, NO_RIGHT) == Ok((5000, renamed)) by {
      assert [C2][1..] == [];
      assert ShortestRight([C2], w2.updates, NO_RIGHT) == ShortestRight([], renamed, Min(NO_RIGHT, 5000));
    }
    var w2' := Walk(Cursor(5000, false, 1), renamed);
    NewlineStartIs(w2, "3", sws);
    assert NewlineStart(w2, "3", sws) == Ok(w2');
    assert Place(w2', "3", 1) == Walk(Cursor(0, true, 1), UPDATES_C);
    WalkPrefixNext(sorted, 2, sws, counted, w2, w2', 1);
  }

  lemma WriteBackC()
    ensures WriteBack(EVENTS_C, UPDATES_C) ==
            [C1.(left := 0, right := 0), C2.(left := 0, right := 5000), C3.(left := 5000, right := 0)]
  {
    var u := UPDATES_C;
    assert u[1..] == [u[1], u[2]] && u[1..][1..] == [u[2]] && [u[2]][1..] == [];
    assert FindUpdate(u, "1") == None;
    assert FindUpdate(u, "2") == Some(u[0]);
    assert FindUpdate(u, "3") == Some(u[2]);
  }

  /** Events 1 and 2 are both active at 1:00, yet event 1 spans the whole
      width and event 2 its left half. */
  lemma ConcurrentSpansOverlap()
    ensures Pack(EVENTS_C, SLOTS_C) ==
            Ok([C1.(left := 0, right := 0), C2.(left := 0, right := 5000), C3.(left := 5000, right := 0)])
    ensures IsActive(C1, Slot(1).date) && IsActive(C2, Slot(1).date)
    ensures SpansOverlap(Pack(EVENTS_C, SLOTS_C).value[0], Pack(EVENTS_C, SLOTS_C).value[1])
  {
    SortedC();
    SlotsC();
    CountedC();
    WalkC();
    PackFrom(EVENTS_C, SLOTS_C, SORTED_C, SWS_C, COUNTED_C, Walk(Cursor(0, true, 1), UPDATES_C));
    WriteBackC();
  }
}
