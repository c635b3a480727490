/**
 * The vertical axis of the weekly grid (`generateTimeSlots`): one row per
 * hour, or per half hour, from the first hour's ":00" to the last hour's ":00".
 */
module TimeSlots {
  import opened Wrappers
  import opened Strings
  import opened Minutes

  /** A row of the axis: its hour, its minute and the label shown beside it. */
  datatype TimeSlot = TimeSlot(hour: int, minute: int, display: string)

  /** `timeSlotInterval`: 30 or 60 minutes per row. */
  type Interval = i: int | i == 30 || i == 60 witness 60

  /** The row for `hour:minute`, labelled `hour.toString().padStart(2, '0')` then ":00" or ":30". */
  function SlotFor(hour: int, minute: int): TimeSlot {
    TimeSlot(hour, minute, PadStart2(IntToString(hour)) + ":" + (if minute == 0 then "00" else "30"))
  }

  /** The number of rows from `startHour` to `endHour`: every hour, plus a
      half-hour row after each hour but the last when the interval is 30. */
  function SlotCount(startHour: int, endHour: int, interval: Interval): nat {
    if endHour < startHour then 0
    else if interval == 60 then endHour - startHour + 1
    else 2 * (endHour - startHour) + 1
  }

  /** The k-th row: `interval` minutes after the one before it, starting at `startHour:00`. */
  function SlotAt(startHour: int, interval: Interval, k: nat): TimeSlot {
    if interval == 60 then SlotFor(startHour + k, 0)
    else SlotFor(startHour + k / 2, if k % 2 == 0 then 0 else 30)
  }

  /** The minute of the day a row stands for. */
  function SlotMinutes(slot: TimeSlot): int {
    slot.hour * 60 + slot.minute
  }

  /** `slots` are the first rows of the axis from `startHour`. */
  predicate RowsFrom(slots: seq<TimeSlot>, startHour: int, interval: Interval) {
    forall k :: 0 <= k < |slots| ==> slots[k] == SlotAt(startHour, interval, k)
  }

  /** Appending the next row keeps a prefix of the axis a prefix of the axis. */
  lemma AppendRow(slots: seq<TimeSlot>, startHour: int, interval: Interval, row: TimeSlot)
    requires RowsFrom(slots, startHour, interval)
    requires row == SlotAt(startHour, interval, |slots|)
    ensures RowsFrom(slots + [row], startHour, interval)
  {
  }

  /** The loop's state before hour `hour`: the rows of every earlier hour, in order. */
  ghost predicate BuiltBefore(slots: seq<TimeSlot>, startHour: int, endHour: int, interval: Interval, hour: int) {
    && startHour <= hour && (hour <= endHour + 1 || hour == startHour)
    && |slots| == (if hour > endHour then SlotCount(startHour, endHour, interval)
                   else if interval == 60 then hour - startHour else 2 * (hour - startHour))
    && RowsFrom(slots, startHour, interval)
  }

  /** One pass of the loop body appends the rows of `hour`. */
  lemma BuildHour(slots: seq<TimeSlot>, startHour: int, endHour: int, interval: Interval, hour: int)
    requires BuiltBefore(slots, startHour, endHour, interval, hour) && hour <= endHour
    ensures interval == 60 ==> BuiltBefore(slots + [SlotFor(hour, 0)], startHour, endHour, interval, hour + 1)
    ensures interval == 30 && hour < endHour ==>
              BuiltBefore(slots + [SlotFor(hour, 0)] + [SlotFor(hour, 30)], startHour, endHour, interval, hour + 1)
    ensures interval == 30 && hour == endHour ==> BuiltBefore(slots + [SlotFor(hour, 0)], startHour, endHour, interval, hour + 1)
  {
    if interval == 30 {
      HourRow(startHour, interval, hour);
      AppendRow(slots, startHour, interval, SlotFor(hour, 0));
      if hour < endHour {
        HalfHourRow(startHour, interval, hour);
        AppendRow(slots + [SlotFor(hour, 0)], startHour, interval, SlotFor(hour, 30));
      }
    } else {
      HourlyRow(startHour, interval, hour);
      AppendRow(slots, startHour, interval, SlotFor(hour, 0));
    }
  }

  /** `generateTimeSlots(startHour, endHour, interval)`: for each hour from
      `startHour` to `endHour`, the ":00" row and, with interval 30 and an hour
      before `endHour`, the ":30" row. Nothing checks the bounds, so
      `endHour < startHour` gives no rows. */
  method GenerateTimeSlots(startHour: int, endHour: int, interval: Interval) returns (slots: seq<TimeSlot>)
    ensures |slots| == SlotCount(startHour, endHour, interval)
    ensures forall k :: 0 <= k < |slots| ==> slots[k] == SlotAt(startHour, interval, k)
  {
    slots := [];
    var hour := startHour;
    while hour <= endHour
      invariant BuiltBefore(slots, startHour, endHour, interval, hour)
      decreases endHour - hour
    {
      BuildHour(slots, startHour, endHour, interval, hour);
      if interval == 30 {
        slots := slots + [SlotFor(hour, 0)];
        if hour < endHour {
          slots := slots + [SlotFor(hour, 30)];
        }
      } else {
        slots := slots + [SlotFor(hour, 0)];
      }
      hour := hour + 1;
    }
  }

  /** Halving an even or an odd row number. */
  lemma HalfRow(d: nat)
    ensures (2 * d) / 2 == d && (2 * d) % 2 == 0
    ensures (2 * d + 1) / 2 == d && (2 * d + 1) % 2 == 1
  {
  }

  /** With interval 60, each hour has one row. */
  lemma HourlyRow(startHour: int, interval: Interval, hour: int)
    requires startHour <= hour && interval == 60
    ensures SlotAt(startHour, interval, hour - startHour) == SlotFor(hour, 0)
  {
  }

  /** With interval 30, the ":00" row of an hour follows two rows per earlier hour. */
  lemma HourRow(startHour: int, interval: Interval, hour: int)
    requires startHour <= hour && interval == 30
    ensures SlotAt(startHour, interval, 2 * (hour - startHour)) == SlotFor(hour, 0)
  {
    HalfRow(hour - startHour);
  }

  /** With interval 30, the ":30" row of an hour comes right after its ":00" row. */
  lemma HalfHourRow(startHour: int, interval: Interval, hour: int)
    requires startHour <= hour && interval == 30
    ensures SlotAt(startHour, interval, 2 * (hour - startHour) + 1) == SlotFor(hour, 30)
  {
    HalfRow(hour - startHour);
  }

  /** Row k stands for `startHour * 60 + k * interval` minutes, on the hour or the half hour. */
  lemma SlotAtMinutes(startHour: int, interval: Interval, k: nat)
    ensures SlotMinutes(SlotAt(startHour, interval, k)) == startHour * 60 + k * interval
    ensures SlotAt(startHour, interval, k).minute in {0, 30}
  {
    if interval == 30 {
      assert k == 2 * (k / 2) + k % 2;
    }
  }

  /** The rows strictly increase in (hour, minute), so none is repeated. */
  lemma SlotsIncreasing(startHour: int, interval: Interval, j: nat, k: nat)
    requires j < k
    ensures SlotMinutes(SlotAt(startHour, interval, j)) < SlotMinutes(SlotAt(startHour, interval, k))
    ensures SlotAt(startHour, interval, j).hour < SlotAt(startHour, interval, k).hour
         || (SlotAt(startHour, interval, j).hour == SlotAt(startHour, interval, k).hour
             && SlotAt(startHour, interval, j).minute < SlotAt(startHour, interval, k).minute)
  {
    SlotAtMinutes(startHour, interval, j);
    SlotAtMinutes(startHour, interval, k);
    assert j * interval < k * interval;
  }

  /** The axis runs from `startHour:00` to `endHour:00` whenever it is not empty. */
  lemma FirstAndLastSlot(startHour: int, endHour: int, interval: Interval)
    requires startHour <= endHour
    ensures SlotCount(startHour, endHour, interval) >= 1
    ensures SlotAt(startHour, interval, 0) == SlotFor(startHour, 0)
    ensures SlotAt(startHour, interval, SlotCount(startHour, endHour, interval) - 1) == SlotFor(endHour, 0)
  {
    var n := SlotCount(startHour, endHour, interval);
    if interval == 30 {
      assert (n - 1) / 2 == endHour - startHour && (n - 1) % 2 == 0;
    }
  }

  /** A row's label is what `minutesToTime` writes for its minute, for any hour that is not negative. */
  lemma SlotDisplayIsMinutesToTime(hour: nat, minute: int)
    requires minute in {0, 30}
    ensures SlotFor(hour, minute).display == MinutesToTime(hour * 60 + minute)
  {
    var m := hour * 60 + minute;
    HourAndMinute(hour, minute);
    MinutesToTimePieces(m);
    MinuteLabel(minute);
  }

  /** `hour * 60 + minute` divides back into the hour and the minute. */
  lemma HourAndMinute(hour: nat, minute: int)
    requires minute in {0, 30}
    ensures (hour * 60 + minute) / 60 == hour && (hour * 60 + minute) % 60 == minute
  {
  }

  /** The minute part of a label, padded as `minutesToTime` pads it. */
  lemma MinuteLabel(minute: int)
    requires minute in {0, 30}
    ensures minute >= 0 && PadStart2(NatToString(minute)) == if minute == 0 then "00" else "30"
  {
    if minute == 30 {
      assert NatToString(30) == "30" by {
        assert NatToString(3) == "3";
      }
    } else {
      assert NatToString(0) == "0";
    }
  }

  /** Reading a label with `timeToMinutes` gives the minute of the day it was made for. */
  lemma SlotForReadsBack(hour: nat, minute: int)
    requires minute in {0, 30}
    ensures TimeToMinutes(SlotFor(hour, minute).display) == Some(hour * 60 + minute)
  {
    SlotDisplayIsMinutesToTime(hour, minute);
    MinutesRoundTrip(hour * 60 + minute);
  }

  /** Reading a row's label with `timeToMinutes` gives the minute the row stands for. */
  lemma SlotDisplayReadsBack(startHour: nat, interval: Interval, k: nat)
    ensures TimeToMinutes(SlotAt(startHour, interval, k).display) == Some(SlotMinutes(SlotAt(startHour, interval, k)))
  {
    if interval == 60 {
      SlotForReadsBack(startHour + k, 0);
    } else {
      SlotForReadsBack(startHour + k / 2, if k % 2 == 0 then 0 else 30);
    }
  }

  /** The props' default grid, hourly from 8 to 20, has 13 rows from "08:00" to "20:00". */
  lemma HourlyDayGrid()
    ensures SlotCount(8, 20, 60) == 13
    ensures SlotAt(8, 60, 0).display == "08:00"
    ensures SlotAt(8, 60, 12).display == "20:00"
  {
  }

  /** The same day from 8 to 20 on a half-hour grid has 25 rows, the last labelled "20:00". */
  lemma HalfHourDayGrid()
    ensures SlotCount(8, 20, 30) == 25
    ensures SlotAt(8, 30, 24).display == "20:00"
  {
    assert NatToString(20) == "20" by {
      assert NatToString(2) == "2";
    }
  }
}
