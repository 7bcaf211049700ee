/** Shared data model of the planner: the agenda events, the hour timeslots, the
    time-of-day arithmetic the planner does with Date values, and the order on
    event identifiers used as a sort tiebreak. */
module PlannerTypes {

  datatype Option<+T> = None | Some(value: T)

  datatype Result<+T, +E> = Ok(value: T) | Err(error: E) {
    predicate IsFailure() { Err? }

    function PropagateFailure<U>(): Result<U, E>
      requires Err?
    {
      Err(error)
    }

    function Extract(): T
      requires Ok?
    {
      value
    }
  }

  /** Seconds in one hour and in one day. */
  const HOUR: int := 3600
  const DAY: int := 86400

  /** A timestamp: seconds since midnight of the planner's day (negative or
      beyond DAY for neighbouring days). */
  type Time = int

  /** An agenda event. `left` and `right` are the horizontal insets of its card,
      in hundredths of a percent of the agenda width (10000 is 100%). */
  datatype AgendaEvent = AgendaEvent(
    id: string,
    start: Time,
    end: Time,
    description: string,
    left: int,
    right: int)

  /** One hour marker of the agenda: its hour, the timestamp of that hour today
      and its measured pixel band. */
  datatype Timeslot = Timeslot(hour: int, date: Time, top: real, bottom: real)

  /** Hour of day of a timestamp, as getHours gives it. */
  function HourOf(t: Time): (h: int)
    ensures 0 <= h < 24
  {
    (t % DAY) / HOUR
  }

  /** The same timestamp with its hour of day replaced, as setHours does it:
      the day and the minutes and seconds are kept, an hour outside 0..23
      rolls into a neighbouring day. */
  function SetHours(t: Time, h: int): Time
  {
    t - t % DAY + h * HOUR + t % HOUR
  }

  lemma {:induction false} TimeDecomposition(t: Time)
    ensures t == (t - t % DAY) + HourOf(t) * HOUR + t % HOUR
    ensures (t - t % DAY) % DAY == 0
  {
    var d := t % DAY;
    assert 0 <= d < DAY;
    assert d == (d / HOUR) * HOUR + d % HOUR;
    assert t % HOUR == d % HOUR by {
      assert t == (t / DAY) * DAY + d;
      assert (t / DAY) * DAY == ((t / DAY) * 24) * HOUR;
      ModShift(d, (t / DAY) * 24, HOUR);
    }
    assert t - t % DAY == (t / DAY) * DAY;
    ModMultiple(t / DAY, DAY);
  }

  lemma {:induction false} ModShift(d: int, k: int, m: int)
    requires m > 0
    ensures (d + k * m) % m == d % m
  {
    var q := d / m;
    assert d == q * m + d % m;
    assert d + k * m == (q + k) * m + d % m;
    DivModUnique(d + k * m, m, q + k, d % m);
  }

  lemma {:induction false} ModMultiple(k: int, m: int)
    requires m > 0
    ensures (k * m) % m == 0
  {
    DivModUnique(k * m, m, k, 0);
  }

  lemma {:induction false} DivModUnique(n: int, m: int, q: int, r: int)
    requires m > 0 && 0 <= r < m && n == q * m + r
    ensures n / m == q && n % m == r
  {
    var q0, r0 := n / m, n % m;
    assert n == q0 * m + r0;
    var k := q - q0;
    assert k * m == r0 - r by {
      assert q * m - q0 * m == r0 - r;
      assert q * m - q0 * m == (q - q0) * m;
    }
    if k > 0 {
      MulAtLeast(k, m);
    } else if k < 0 {
      MulAtLeast(-k, m);
    }
  }

  lemma MulAtLeast(k: int, m: int)
    requires k >= 1 && m > 0
    ensures k * m >= m
  {
    assert k * m == (k - 1) * m + m;
  }

  /** Setting the hour to `HourOf(t) + d` moves the timestamp by exactly `d`
      hours, whatever `d`, because an out-of-range hour rolls over. */
  lemma {:induction false} SetHoursShift(t: Time, d: int)
    ensures SetHours(t, HourOf(t) + d) == t + d * HOUR
  {
    TimeDecomposition(t);
  }

  /** Within the day, setHours yields the requested hour and keeps the
      minutes, seconds and the day. */
  lemma {:induction false} SetHoursWithinDay(t: Time, h: int)
    requires 0 <= h < 24
    ensures HourOf(SetHours(t, h)) == h
    ensures SetHours(t, h) % HOUR == t % HOUR
    ensures SetHours(t, h) - SetHours(t, h) % DAY == t - t % DAY
  {
    TimeDecomposition(t);
    var day := t - t % DAY;
    var rest := h * HOUR + t % HOUR;
    assert 0 <= rest < DAY;
    assert day == (t / DAY) * DAY;
    DivModUnique(SetHours(t, h), DAY, t / DAY, rest);
    DivModUnique(rest, HOUR, h, t % HOUR);
    assert SetHours(t, h) % HOUR == t % HOUR by {
      assert SetHours(t, h) == rest + ((t / DAY) * 24) * HOUR;
      ModShift(rest, (t / DAY) * 24, HOUR);
    }
  }

  /** differenceInMinutes: whole minutes between two timestamps, truncated
      toward zero. */
  function DifferenceInMinutes(later: Time, earlier: Time): (m: int)
    ensures later >= earlier ==> 0 <= m * 60 <= later - earlier < m * 60 + 60
    ensures later < earlier ==> m * 60 - 60 < later - earlier <= m * 60 <= 0
  {
    var d := later - earlier;
    if d >= 0 then d / 60 else -((-d) / 60)
  }

  /** The order of event identifiers used as tiebreak: lexicographic order
      on characters, standing for localeCompare. */
  predicate IdLess(a: string, b: string)
  {
    if |a| == 0 then |b| > 0
    else if |b| == 0 then false
    else a[0] < b[0] || (a[0] == b[0] && IdLess(a[1..], b[1..]))
  }

  lemma {:induction false} IdLessIrreflexive(a: string)
    ensures !IdLess(a, a)
  {
    if |a| > 0 {
      IdLessIrreflexive(a[1..]);
    }
  }

  lemma {:induction false} IdLessTransitive(a: string, b: string, c: string)
    requires IdLess(a, b) && IdLess(b, c)
    ensures IdLess(a, c)
  {
    if |a| > 0 && |b| > 0 && |c| > 0 && a[0] == b[0] == c[0] {
      IdLessTransitive(a[1..], b[1..], c[1..]);
    }
  }

  lemma {:induction false} IdLessTotal(a: string, b: string)
    requires a != b
    ensures IdLess(a, b) || IdLess(b, a)
  {
    if |a| > 0 && |b| > 0 && a[0] == b[0] {
      assert a == [a[0]] + a[1..] && b == [b[0]] + b[1..];
      IdLessTotal(a[1..], b[1..]);
    }
  }

  lemma IdLessAsymmetric(a: string, b: string)
    requires IdLess(a, b)
    ensures !IdLess(b, a)
  {
    if IdLess(b, a) {
      IdLessTransitive(a, b, a);
      IdLessIrreflexive(a);
    }
  }
}
