/**
 * The dates across the top of the weekly grid (`getCurrentWeekDates`,
 * `navigateWeek`). A date is a day number: whole days since Thursday
 * 1 January 1970 in local time, so that `getDay` is a function of it.
 */
module WeekDates {

  /** `getDay()`: 0 for Sunday through 6 for Saturday. */
  type Weekday = d: int | 0 <= d < 7

  /** The weekday of a day number; day 0 was a Thursday. */
  function DayOfWeek(date: int): Weekday {
    (date + 4) % 7
  }

  /** Seven consecutive days starting on a Sunday. */
  predicate IsWeek(week: seq<int>) {
    && |week| == 7
    && DayOfWeek(week[0]) == 0
    && forall i :: 0 <= i < 7 ==> week[i] == week[0] + i
  }

  /** `getCurrentWeekDates()` with `today` in place of `new Date()`: go back
      `today.getDay()` days to the Sunday, then push that day and the six after it. */
  method CurrentWeekDates(today: int) returns (week: seq<int>)
    ensures |week| == 7
    ensures forall i :: 0 <= i < 7 ==> week[i] == today - DayOfWeek(today) + i
    ensures IsWeek(week) && week[DayOfWeek(today)] == today
  {
    var startOfWeek := today - DayOfWeek(today);
    week := [];
    for i := 0 to 7
      invariant |week| == i
      invariant forall j :: 0 <= j < i ==> week[j] == startOfWeek + j
    {
      week := week + [startOfWeek + i];
    }
    SundayStart(today);
  }

  /** Going back `getDay()` days from any date lands on a Sunday. */
  lemma SundayStart(today: int)
    ensures DayOfWeek(today - DayOfWeek(today)) == 0
  {
    var w := DayOfWeek(today);
    assert (today + 4) % 7 == w;
    assert today - w + 4 == 7 * ((today + 4) / 7);
  }

  /** The two buttons above the grid. */
  datatype Direction = Prev | Next

  /** `direction === 'next' ? 7 : -7`. */
  function Offset(direction: Direction): (d: int)
    ensures d == 7 || d == -7
    ensures d == 7 <==> direction == Next
  {
    if direction == Next then 7 else -7
  }

  /** `navigateWeek(direction)`: every date moved a week forward or back. */
  function ShiftWeek(week: seq<int>, direction: Direction): (r: seq<int>)
    ensures |r| == |week|
    ensures forall i :: 0 <= i < |week| ==> r[i] - week[i] == Offset(direction)
  {
    seq(|week|, i requires 0 <= i < |week| => week[i] + Offset(direction))
  }

  /** Moving a week forward undoes moving it back, and the other way round. */
  lemma ShiftRoundTrip(week: seq<int>)
    ensures ShiftWeek(ShiftWeek(week, Next), Prev) == week
    ensures ShiftWeek(ShiftWeek(week, Prev), Next) == week
  {
  }

  /** A week moved either way is still a Sunday-to-Saturday week. */
  lemma ShiftKeepsWeek(week: seq<int>, direction: Direction)
    requires IsWeek(week)
    ensures IsWeek(ShiftWeek(week, direction))
  {
    var r := ShiftWeek(week, direction);
    assert r[0] == week[0] + Offset(direction);
    assert (r[0] + 4) % 7 == (week[0] + 4) % 7;
  }
}
