/**
 * Where the events sit on the grid: which slot a time falls in
 * (`getEventsForDayAndTime`) and the pixel offset and height of an event's
 * box (`getEventTop`, `getEventHeight`), with each slot 60 pixels high.
 */
module Geometry {
  import opened Wrappers
  import opened Strings
  import opened Seqs
  import opened Minutes
  import opened TimeSlots
  import opened Calendar

  /** JavaScript's `a <= b` on numbers that may be NaN: false when either is. */
  predicate AtMost(a: Option<int>, b: Option<int>) {
    a.Some? && b.Some? && a.value <= b.value
  }

  /** JavaScript's `a < b` on numbers that may be NaN. */
  predicate Below(a: Option<int>, b: Option<int>) {
    a.Some? && b.Some? && a.value < b.value
  }

  /** The test of `getEventsForDayAndTime`: same day, and the slot's minute is
      in the event's half-open span `[start, end)`. */
  predicate Occupies(e: CalendarEvent, day: int, time: string) {
    e.day == day
    && AtMost(TimeToMinutes(e.startTime), TimeToMinutes(time))
    && Below(TimeToMinutes(time), TimeToMinutes(e.endTime))
  }

  /** `getEventsForDayAndTime(day, time)`: the events covering that cell, in list order. */
  function EventsForDayAndTime(events: seq<CalendarEvent>, day: int, time: string): (r: seq<CalendarEvent>)
    ensures |r| <= |events|
    ensures forall e :: e in r <==>
              && e in events && e.day == day
              && TimeToMinutes(e.startTime).Some? && TimeToMinutes(time).Some? && TimeToMinutes(e.endTime).Some?
              && TimeToMinutes(e.startTime).value <= TimeToMinutes(time).value < TimeToMinutes(e.endTime).value
  {
    Filter(events, (e: CalendarEvent) => Occupies(e, day, time))
  }

  /** The cell at an event's end time is not covered by it: the span is half-open. */
  lemma EndSlotFree(events: seq<CalendarEvent>, e: CalendarEvent)
    ensures e !in EventsForDayAndTime(events, e.day, e.endTime)
  {
  }

  /** The cell at an event's start time is covered exactly when the event has a readable, positive span. */
  lemma StartSlotCovered(events: seq<CalendarEvent>, e: CalendarEvent)
    requires e in events
    ensures e in EventsForDayAndTime(events, e.day, e.startTime) <==>
              Below(TimeToMinutes(e.startTime), TimeToMinutes(e.endTime))
  {
  }

  /** `(offset / interval) * 60` pixels, or NaN (None) when the offset is. */
  function Pixels(offset: Option<int>, interval: Interval): (r: Option<real>)
    ensures r.Some? <==> offset.Some?
    ensures r.Some? ==> r.value == (offset.value * (60 / interval)) as real
  {
    match offset
    case None => None
    case Some(d) => Some((d as real / interval as real) * 60.0)
  }

  /** `end - start` on numbers that may be NaN. */
  function Difference(a: Option<int>, b: Option<int>): (r: Option<int>)
    ensures r.Some? <==> a.Some? && b.Some?
    ensures r.Some? ==> r.value + b.value == a.value
  {
    if a.Some? && b.Some? then Some(a.value - b.value) else None
  }

  /** `getEventHeight(event)`: the duration in slots times 60 pixels; with an
      interval of 30 or 60 this is a whole number, twice or once the minutes. */
  function EventHeight(e: CalendarEvent, interval: Interval): (h: Option<real>)
    ensures h.Some? <==> TimeToMinutes(e.startTime).Some? && TimeToMinutes(e.endTime).Some?
    ensures h.Some? ==> h.value == ((TimeToMinutes(e.endTime).value - TimeToMinutes(e.startTime).value) * (60 / interval)) as real
  {
    Pixels(Difference(TimeToMinutes(e.endTime), TimeToMinutes(e.startTime)), interval)
  }

  /** `getEventTop(event)`: the start's offset from `startHour:00` in slots times 60 pixels. */
  function EventTop(e: CalendarEvent, startHour: int, interval: Interval): (t: Option<real>)
    ensures t.Some? <==> TimeToMinutes(e.startTime).Some?
    ensures t.Some? ==> t.value == ((TimeToMinutes(e.startTime).value - startHour * 60) * (60 / interval)) as real
  {
    Pixels(Difference(TimeToMinutes(e.startTime), Some(startHour * 60)), interval)
  }

  /** "HH:MM" with two-digit pieces reads as hours times 60 plus minutes. */
  lemma ReadClock(hh: string, mm: string)
    requires |hh| == 2 && |mm| == 2 && AllDigits(hh) && AllDigits(mm)
    ensures TimeToMinutes(hh + ":" + mm)
         == Some((DigitValue(hh[0]) * 10 + DigitValue(hh[1])) * 60 + DigitValue(mm[0]) * 10 + DigitValue(mm[1]))
  {
    JoinedPiecesRead(hh, mm);
    TwoDigitsValue(hh);
    TwoDigitsValue(mm);
  }

  /** A 14:00 to 15:30 event on the hourly grid is 90 pixels high, and its box
      starts 360 pixels below an 8:00 first row. */
  lemma NinetyMinuteBox(e: CalendarEvent)
    requires e.startTime == "14:00" && e.endTime == "15:30"
    ensures EventHeight(e, 60) == Some(90.0)
    ensures EventTop(e, 8, 60) == Some(360.0)
  {
    assert "14:00" == "14" + ":" + "00";
    assert "15:30" == "15" + ":" + "30";
    ReadClock("14", "00");
    ReadClock("15", "30");
  }
}
