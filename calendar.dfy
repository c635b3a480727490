/**
 * The events of the weekly grid and their construction from the study
 * blocks (`CalendarEvent`, `convertStudyBlocksToEvents`).
 */
module Calendar {
  import opened Wrappers
  import opened Strings
  import opened Types
  import opened Categories
  import opened WeekDates

  /** A box on the grid. The optional back-references are None (`undefined`)
      for events made in the dialog rather than taken from a study session. */
  datatype CalendarEvent = CalendarEvent(
    id: string,
    title: string,
    description: string,
    startTime: string,   // "HH:MM"
    endTime: string,     // "HH:MM"
    day: int,            // 0 = Sunday
    category: string,
    color: string,
    blockId: Option<string>,
    sessionId: Option<string>,
    courseId: Option<string>)

  function EventId(e: CalendarEvent): string { e.id }

  /** `timestamp.split('T')[1]?.split(':') || ['00', '00']`, written back as
      `${parts[0]}:${parts[1]}`: the hours and minutes after the 'T', "00:00"
      when there is no 'T', and "undefined" for a missing minutes piece. */
  function TimeOfDay(timestamp: string): (r: string)
    ensures 'T' !in timestamp ==> r == "00:00"
  {
    var halves := Split(timestamp, 'T');
    assert 'T' !in timestamp ==> halves == [timestamp] by {
      if 'T' !in timestamp { SplitWithoutSeparator(timestamp, 'T'); }
    }
    if |halves| < 2 then "00:00"
    else
      var parts := Split(halves[1], ':');
      parts[0] + ":" + (if |parts| >= 2 then parts[1] else "undefined")
  }

  /** An ISO timestamp `date T hh : mm : rest` gives "hh:mm". */
  lemma TimeOfDayOfIso(date: string, hh: string, mm: string, rest: string)
    requires 'T' !in date && 'T' !in hh && 'T' !in mm && 'T' !in rest
    requires ':' !in hh && ':' !in mm
    ensures TimeOfDay(date + "T" + hh + ":" + mm + ":" + rest) == hh + ":" + mm
  {
    var time := hh + ":" + mm + ":" + rest;
    assert date + "T" + hh + ":" + mm + ":" + rest == date + ['T'] + time;
    SplitPair(date, time, 'T');
    assert time == hh + [':'] + (mm + [':'] + rest);
    SplitAtFirst(hh, mm + [':'] + rest, ':');
    SplitAtFirst(mm, rest, ':');
  }

  /** After a 'T' with no ':' following, the minutes piece is missing. */
  lemma TimeOfDayWithoutColon(date: string, time: string)
    requires 'T' !in date && 'T' !in time && ':' !in time
    ensures TimeOfDay(date + "T" + time) == time + ":undefined"
  {
    SplitPair(date, time, 'T');
    SplitWithoutSeparator(time, ':');
  }

  /** The event for one session of a block that falls on weekday `day`. */
  function SessionEvent(block: StudyBlock, session: StudySession, day: Weekday): (e: CalendarEvent)
    ensures e.id == block.id + "-" + session.id
    ensures e.blockId == Some(block.id) && e.sessionId == Some(session.id) && e.courseId == Some(session.courseId)
    ensures e.title == session.title && e.day == day
    ensures e.startTime == TimeOfDay(session.startTime) && e.endTime == TimeOfDay(session.endTime)
    ensures e.category == CategoryOfType(session.kind.Name())
    ensures e.category != "other" && e.color == CategoryColor(e.category)
  {
    SessionTypeCategory(session.kind);
    var category := CategoryOfType(session.kind.Name());
    CalendarEvent(
      block.id + "-" + session.id,
      session.title,
      "",  // sessions carry no description, so `session.description || ''` is ""
      TimeOfDay(session.startTime),
      TimeOfDay(session.endTime),
      day,
      category,
      CategoryColor(category),
      Some(block.id),
      Some(session.id),
      Some(session.courseId))
  }

  /** `block.sessions.map(...)`: one event per session, all on the block's weekday. */
  function BlockEvents(block: StudyBlock, day: Weekday): (r: seq<CalendarEvent>)
    ensures |r| == |block.sessions|
    ensures forall j :: 0 <= j < |r| ==> r[j] == SessionEvent(block, block.sessions[j], day)
  {
    seq(|block.sessions|, j requires 0 <= j < |block.sessions| => SessionEvent(block, block.sessions[j], day))
  }

  /** `convertStudyBlocksToEvents()`: the blocks' events one block after another;
      `weekdayOf` stands for `new Date(block.date).getDay()`. */
  function ConvertStudyBlocksToEvents(blocks: seq<StudyBlock>, weekdayOf: string -> Weekday): (r: seq<CalendarEvent>)
    ensures |r| == |AllSessions(blocks)|
    decreases |blocks|
  {
    if blocks == [] then []
    else BlockEvents(blocks[0], weekdayOf(blocks[0].date)) + ConvertStudyBlocksToEvents(blocks[1..], weekdayOf)
  }

  /** The block each session of `AllSessions(blocks)` belongs to, position by position. */
  function SessionOwners(blocks: seq<StudyBlock>): (r: seq<StudyBlock>)
    ensures forall b :: b in r ==> b in blocks
    decreases |blocks|
  {
    if blocks == [] then []
    else seq(|blocks[0].sessions|, _ => blocks[0]) + SessionOwners(blocks[1..])
  }

  /** The conversion has exactly one event per session, in block and session
      order: the i-th event is built from the i-th session and its block. */
  lemma {:induction false} ConvertMatchesSessions(blocks: seq<StudyBlock>, weekdayOf: string -> Weekday)
    ensures |ConvertStudyBlocksToEvents(blocks, weekdayOf)| == |AllSessions(blocks)| == |SessionOwners(blocks)|
    ensures forall i :: 0 <= i < |AllSessions(blocks)| ==>
              && AllSessions(blocks)[i] in SessionOwners(blocks)[i].sessions
              && ConvertStudyBlocksToEvents(blocks, weekdayOf)[i]
                 == SessionEvent(SessionOwners(blocks)[i], AllSessions(blocks)[i], weekdayOf(SessionOwners(blocks)[i].date))
    decreases |blocks|
  {
    if blocks != [] {
      var b := blocks[0];
      ConvertMatchesSessions(blocks[1..], weekdayOf);
      var events, sessions, owners := ConvertStudyBlocksToEvents(blocks, weekdayOf), AllSessions(blocks), SessionOwners(blocks);
      var n := |b.sessions|;
      forall i | 0 <= i < |sessions|
        ensures sessions[i] in owners[i].sessions
        ensures events[i] == SessionEvent(owners[i], sessions[i], weekdayOf(owners[i].date))
      {
        if i < n {
          assert sessions[i] == b.sessions[i] && owners[i] == b;
        } else {
          assert sessions[i] == AllSessions(blocks[1..])[i - n];
          assert owners[i] == SessionOwners(blocks[1..])[i - n];
          assert events[i] == ConvertStudyBlocksToEvents(blocks[1..], weekdayOf)[i - n];
        }
      }
    }
  }
}
