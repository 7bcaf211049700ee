/** The five events the planner page starts with, laid out by the packing
    model over the timeslots from 1:00 to 9:00 (the hours in which any of
    them is active; the other hours of the day hold no event and are dropped
    by the pass). */
module SeedExample {
  import opened PlannerTypes
  import opened Ranking
  import opened Packing
  import opened PackingExamples

  const E1: AgendaEvent := Ev("1", 2, 8)
  const E2: AgendaEvent := Ev("2", 1, 4)
  const E3: AgendaEvent := Ev("3", 2, 5)
  const E4: AgendaEvent := Ev("4", 6, 9)
  const E5: AgendaEvent := Ev("5", 9, 10)
  const EVENTS: seq<AgendaEvent> := [E1, E2, E3, E4, E5]

  const R1: Ranked := Ranked(E1, 360)
  const R2: Ranked := Ranked(E2, 180)
  const R3: Ranked := Ranked(E3, 180)
  const R4: Ranked := Ranked(E4, 180)
  const R5: Ranked := Ranked(E5, 60)
  const SORTED: seq<Ranked> := [R1, R2, R3, R4, R5]

  /** The timeslots from hour h to 9:00. */
  function SlotsFrom(h: int): seq<Timeslot>
    decreases 10 - h
  {
    if h >= 10 then [] else [Slot(h)] + SlotsFrom(h + 1)
  }

  /** The events active at each hour of the table, in duration order. */
  function ActiveSeed(h: int): seq<Ranked>
  {
    if h == 1 then [R2]
    else if h == 2 || h == 3 then [R1, R2, R3]
    else if h == 4 then [R1, R3]
    else if h == 5 then [R1]
    else if h == 6 || h == 7 then [R1, R4]
    else if h == 8 then [R4]
    else [R5]
  }

  function SwsFrom(h: int): seq<SlotEvents>
    decreases 10 - h
  {
    if h >= 10 then [] else [SlotEvents(Slot(h), ActiveSeed(h))] + SwsFrom(h + 1)
  }

  lemma SortedSeed()
    ensures EventsSortedByDuration(EVENTS) == SORTED
  {
    assert DifferenceInMinutes(E1.end, E1.start) == 360;
    assert DifferenceInMinutes(E2.end, E2.start) == 180;
    assert DifferenceInMinutes(E3.end, E3.start) == 180;
    assert DifferenceInMinutes(E4.end, E4.start) == 180;
    assert DifferenceInMinutes(E5.end, E5.start) == 60;
    assert DurationRanked(EVENTS) == SORTED;
    assert !IdLess("3", "2") && !IdLess("4", "3");
    SortByRankKeepsOrdered(SORTED);
  }

  function Keep(x: Ranked, d: Time): seq<Ranked>
  {
    if IsActive(x.event, d) then [x] else []
  }

  lemma ActiveAtCons(x: Ranked, s: seq<Ranked>, d: Time)
    ensures ActiveAt([x] + s, d) == Keep(x, d) + ActiveAt(s, d)
  {
    assert ([x] + s)[1..] == s;
  }

  lemma ActiveAtFive(a: Ranked, b: Ranked, c: Ranked, e: Ranked, f: Ranked, d: Time)
    ensures ActiveAt([a, b, c, e, f], d) == Keep(a, d) + (Keep(b, d) + (Keep(c, d) + (Keep(e, d) + Keep(f, d))))
  {
    ActiveAtCons(f, [], d);
    assert ActiveAt([f], d) == Keep(f, d) by {
      assert [f] == [f] + [];
      assert Keep(f, d) + [] == Keep(f, d);
    }
    ActiveAtCons(e, [f], d);
    assert [e, f] == [e] + [f];
    ActiveAtCons(c, [e, f], d);
    assert [c, e, f] == [c] + [e, f];
    ActiveAtCons(b, [c, e, f], d);
    assert [b, c, e, f] == [b] + [c, e, f];
    ActiveAtCons(a, [b, c, e, f], d);
    assert [a, b, c, e, f] == [a] + [b, c, e, f];
  }

  lemma ActiveAtSeed(d: Time)
    ensures ActiveAt(SORTED, d) == Keep(R1, d) + (Keep(R2, d) + (Keep(R3, d) + (Keep(R4, d) + Keep(R5, d))))
  {
    ActiveAtFive(R1, R2, R3, R4, R5, d);
  }

  lemma ActiveSeedHour(h: int)
    requires 1 <= h <= 9
    ensures ActiveAt(SORTED, Slot(h).date) == ActiveSeed(h)
  {
    ActiveAtSeed(h * HOUR);
  }

  lemma {:induction false} SlotsSeedFrom(h: int)
    requires 1 <= h <= 10
    ensures SlotsWithEvents(SlotsFrom(h), SORTED) == SwsFrom(h)
    decreases 10 - h
  {
    if h < 10 {
      SlotsSeedFrom(h + 1);
      ActiveSeedHour(h);
      assert SlotsFrom(h)[1..] == SlotsFrom(h + 1);
    }
  }

  lemma {:induction false} SlotsFromMember(h: int, t: Timeslot)
    requires t in SlotsFrom(h)
    ensures exists k :: h <= k <= 9 && t == Slot(k)
    decreases 10 - h
  {
    if t != Slot(h) {
      SlotsFromMember(h + 1, t);
    }
  }

  lemma {:induction false} SlotInFrom(h: int, h0: int)
    requires 1 <= h <= h0 <= 9
    ensures Slot(h0) in SlotsFrom(h)
    decreases h0 - h
  {
    if h < h0 {
      SlotInFrom(h + 1, h0);
    }
  }

  lemma OnlySeed(me: Ranked)
    requires me in SORTED
    ensures OnlyEntryWithId(SORTED, me)
  {
  }

  const SWS: seq<SlotEvents> := SwsFrom(1)
  const COUNTED: seq<Ranked> :=
    [Ranked(E1, 2), Ranked(E2, 2), Ranked(E3, 2), Ranked(E4, 1), Ranked(E5, 0)]

  /** The conflict count of the i-th seed event, from the hour h0 where it
      meets the most events and a bound on every hour it is active in. */
  lemma CountSeed(i: int, h0: int)
    requires 0 <= i < |EVENTS| && 1 <= h0 <= 9 && IsActive(EVENTS[i], h0 * HOUR)
    requires |ActiveSeed(h0)| - 1 == COUNTED[i].rank
    requires forall h :: 1 <= h <= 9 && IsActive(EVENTS[i], h * HOUR) ==> |ActiveSeed(h)| - 1 <= COUNTED[i].rank
    ensures COUNTED[i] == Ranked(EVENTS[i], ConflictCount(SWS, EVENTS[i].id))
  {
    var me, c := SORTED[i], COUNTED[i].rank;
    assert me.event == EVENTS[i] == COUNTED[i].event;
    SlotsSeedFrom(1);
    OnlySeed(me);
    ConflictCountOf(SORTED, SlotsFrom(1), me);
    SlotInFrom(1, h0);
    ActiveSeedHour(h0);
    forall t | t in SlotsFrom(1) && IsActive(me.event, t.date)
      ensures |ActiveAt(SORTED, t.date)| - 1 <= c
    {
      SlotsFromMember(1, t);
      var k :| 1 <= k <= 9 && t == Slot(k);
      ActiveSeedHour(k);
    }
  }

  lemma CountRankedOf(events: seq<AgendaEvent>, sws: seq<SlotEvents>, counted: seq<Ranked>)
    requires |counted| == |events|
    requires forall i :: 0 <= i < |events| ==>
               counted[i] == Ranked(events[i], ConflictCount(sws, events[i].id))
    ensures CountRanked(events, sws) == counted
  {
  }

  /** The conflict counts of the seed: two for each of the three events
      meeting at 2:00, one for the event meeting only the longest one, none
      for the last. */
  lemma CountRankedSeed()
    ensures CountRanked(EVENTS, SWS) == COUNTED
  {
    forall i | 0 <= i < |EVENTS|
      ensures COUNTED[i] == Ranked(EVENTS[i], ConflictCount(SWS, EVENTS[i].id))
    {
      if i < 3 { CountSeed(i, 2); }
      else if i == 3 { CountSeed(i, 6); }
      else { CountSeed(i, 9); }
    }
    CountRankedOf(EVENTS, SWS, COUNTED);
  }

  /** The conflict-count order of the seed is its duration order. */
  lemma CountedSeed()
    ensures EventsSortedByConflictCount(EVENTS, SWS) == COUNTED
  {
    CountRankedSeed();
    assert !IdLess("2", "1") && !IdLess("3", "2");
    SortByRankKeepsOrdered(COUNTED);
  }

  lemma FindCountCons(x: Ranked, s: seq<Ranked>, id: string)
    ensures FindCount([x] + s, id) == if x.event.id == id then Some(x.rank) else FindCount(s, id)
  {
    assert ([x] + s)[1..] == s;
  }

  lemma FindCountsSeed()
    ensures FindCount(COUNTED, "1") == Some(2) && FindCount(COUNTED, "2") == Some(2)
    ensures FindCount(COUNTED, "3") == Some(2) && FindCount(COUNTED, "4") == Some(1)
    ensures FindCount(COUNTED, "5") == Some(0)
  {
    var c1, c2, c3, c4, c5 := Ranked(E1, 2), Ranked(E2, 2), Ranked(E3, 2), Ranked(E4, 1), Ranked(E5, 0);
    assert COUNTED == [c1] + ([c2] + ([c3] + ([c4] + [c5])));
    forall id | id in ["1", "2", "3", "4", "5"]
      ensures FindCount(COUNTED, id) ==
              if id == "1" then Some(2) else if id == "2" then Some(2) else if id == "3" then Some(2)
              else if id == "4" then Some(1) else Some(0)
    {
      FindCountCons(c5, [], id);
      FindCountCons(c4, [c5], id);
      FindCountCons(c3, [c4] + [c5], id);
      FindCountCons(c2, [c3] + ([c4] + [c5]), id);
      FindCountCons(c1, [c2] + ([c3] + ([c4] + [c5])), id);
    }
  }

  /** No hour before 9:00 holds the last event. */
  lemma NoFiveBefore(h: int)
    requires 1 <= h <= 8
    ensures !HasId(ActiveSeed(h), "5")
  {
    var evs := ActiveSeed(h);
    forall k | 0 <= k < |evs|
      ensures evs[k].event.id != "5"
    {
      assert evs[k] in [R1, R2, R3, R4];
    }
  }

  lemma {:induction false} NoneConflictWithLast(h: int)
    requires 1 <= h <= 10
    ensures ConflictingFlat(SwsFrom(h), "5") == []
    decreases 10 - h
  {
    if h < 10 {
      NoneConflictWithLast(h + 1);
      assert SwsFrom(h)[1..] == SwsFrom(h + 1);
      if h == 9 {
        assert Others([R5], "5") == [];
      } else {
        NoFiveBefore(h);
      }
    }
  }

  const U1: Update := Update("1", 0, 6667)
  const U2: Update := Update("2", 3333, 3334)
  const U3: Update := Update("3", 6666, 1)
  const U4: Update := Update("4", 9999, 0)
  const U5: Update := Update("5", 0, 0)

  const W1: Walk := Walk(Cursor(3333, false, 0), [U1])
  const W2: Walk := Walk(Cursor(6666, false, 0), [U1, U2])
  const W3: Walk := Walk(Cursor(9999, false, 0), [U1, U2, U3])
  const W4: Walk := Walk(Cursor(0, true, 0), [U1, U2, U3, U4])
  const W5: Walk := Walk(Cursor(0, false, 0), [U1, U2, U3, U4, U5])

  /** The three longest events, two conflicts each, split the width in thirds. */
  lemma PlaceSeedThirds()
    ensures Place(START, "1", 2) == W1
    ensures Place(W1, "2", 2) == W2
    ensures Place(W2, "3", 2) == W3
  {
    assert RoundedQuotient(FULL, 3) == 3333;
    assert [] + [U1] == [U1];
    assert [U1] + [U2] == [U1, U2];
    assert [U1, U2] + [U3] == [U1, U2, U3];
  }

  lemma PlaceSeedFourth()
    ensures Place(W3, "4", 1) == W4
  {
    assert RoundedQuotient(FULL, 2) == 5000;
    assert [U1, U2, U3] + [U4] == [U1, U2, U3, U4];
  }

  lemma WalkSeedThirds()
    ensures WalkPrefix(SORTED, 3, SWS, COUNTED) == Ok(W3)
  {
    FindCountsSeed();
    PlaceSeedThirds();
    WalkPrefixNext(SORTED, 0, SWS, COUNTED, START, START, 2);
    WalkPrefixNext(SORTED, 1, SWS, COUNTED, W1, W1, 2);
    WalkPrefixNext(SORTED, 2, SWS, COUNTED, W2, W2, 2);
  }

  /** The fourth event, one conflict, starts at 99.99% and gets a right inset
      clamped to 0, which wraps the line. */
  lemma WalkSeedFourth()
    ensures WalkPrefix(SORTED, 4, SWS, COUNTED) == Ok(W4)
  {
    WalkSeedThirds();
    FindCountsSeed();
    PlaceSeedFourth();
    WalkPrefixNext(SORTED, 3, SWS, COUNTED, W3, W3, 1);
  }

  lemma NewlineSeed()
    ensures NewlineStart(W4, "5", SWS) == Ok(W4.(cursor := Cursor(FULL - NO_RIGHT, false, 0)))
  {
    NoneConflictWithLast(1);
    assert ConflictingEvents(SWS, "5") == [];
    NewlineStartSpec(W4, "5", SWS);
  }

  lemma PlaceSeedLast()
    ensures Place(W4.(cursor := Cursor(FULL - NO_RIGHT, false, 0)), "5", 0) == W5
  {
    assert W4.updates + [U5] == W5.updates;
  }

  /** The fifth event, after the wrap, conflicts with nothing and gets 0/0. */
  lemma WalkSeed()
    ensures WalkPrefix(SORTED, 5, SWS, COUNTED) == Ok(W5)
  {
    WalkSeedFourth();
    FindCountsSeed();
    NewlineSeed();
    var w4' := W4.(cursor := Cursor(FULL - NO_RIGHT, false, 0));
    PlaceSeedLast();
    WalkPrefixNext(SORTED, 4, SWS, COUNTED, W4, w4', 0);
  }

  const LAYOUT: seq<AgendaEvent> :=
    [E1.(left := 0, right := 6667), E2.(left := 3333, right := 3334), E3.(left := 6666, right := 1),
     E4.(left := 9999, right := 0), E5.(left := 0, right := 0)]

  lemma WriteBackSeed()
    ensures WriteBack(EVENTS, W5.updates) == LAYOUT
  {
    assert UniqueIds(EVENTS);
    WriteBackAligned(EVENTS, W5.updates);
    var r := WriteBack(EVENTS, W5.updates);
    assert r[0] == LAYOUT[0] && r[1] == LAYOUT[1] && r[2] == LAYOUT[2];
    assert r[3] == LAYOUT[3] && r[4] == LAYOUT[4];
  }

  /** The seed layout: the long 2:00-8:00 event and the two events it meets
      at 2:00 take a third each; the 6:00-9:00 event starts at 99.99% and is
      0.01% wide; the 9:00-10:00 event, after the wrap, takes the full width. */
  lemma SeedLayout()
    ensures Pack(EVENTS, SlotsFrom(1)) == Ok(LAYOUT)
  {
    SortedSeed();
    SlotsSeedFrom(1);
    CountedSeed();
    WalkSeed();
    PackFrom(EVENTS, SlotsFrom(1), SORTED, SWS, COUNTED, W5);
    WriteBackSeed();
  }
}
