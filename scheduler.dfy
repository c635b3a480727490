/**
 * The weekly scheduler component: its props, its local state and the
 * handlers that change that state (week navigation, the create/edit dialog,
 * delete, the completion toggle and drag selection).
 */
module Scheduler {
  import opened Wrappers
  import opened Strings
  import opened Seqs
  import opened Types
  import opened Minutes
  import opened TimeSlots
  import opened WeekDates
  import opened Categories
  import opened Calendar
  import opened Selection

  /** The dialog's fields. */
  datatype FormData = FormData(
    title: string,
    description: string,
    category: string,
    startTime: string,
    endTime: string,
    day: int,
    courseId: string)

  /** What one of the dialog's inputs writes: the field and the new text. */
  datatype FieldEdit =
    | EditTitle(text: string)        // the title input
    | EditDescription(text: string)  // the description textarea
    | EditCourse(text: string)       // the course select
    | EditCategory(text: string)     // the category select
    | EditStartTime(text: string)    // the start time input
    | EditEndTime(text: string)      // the end time input

  /** `setFormData(prev => ({ ...prev, <field>: value }))`: the edited field takes
      the text, the other fields keep theirs, and no input writes the day. */
  function EditedForm(form: FormData, edit: FieldEdit): (r: FormData)
    ensures r.day == form.day
    ensures r.title == if edit.EditTitle? then edit.text else form.title
    ensures r.description == if edit.EditDescription? then edit.text else form.description
    ensures r.courseId == if edit.EditCourse? then edit.text else form.courseId
    ensures r.category == if edit.EditCategory? then edit.text else form.category
    ensures r.startTime == if edit.EditStartTime? then edit.text else form.startTime
    ensures r.endTime == if edit.EditEndTime? then edit.text else form.endTime
  {
    match edit
    case EditTitle(t) => form.(title := t)
    case EditDescription(t) => form.(description := t)
    case EditCourse(t) => form.(courseId := t)
    case EditCategory(t) => form.(category := t)
    case EditStartTime(t) => form.(startTime := t)
    case EditEndTime(t) => form.(endTime := t)
  }

  /** Typing a field's own text back into it changes nothing. */
  lemma EditSameText(form: FormData, edit: FieldEdit)
    requires edit == EditTitle(form.title) || edit == EditDescription(form.description)
          || edit == EditCourse(form.courseId) || edit == EditCategory(form.category)
          || edit == EditStartTime(form.startTime) || edit == EditEndTime(form.endTime)
    ensures EditedForm(form, edit) == form
  {
  }

  /** A call the component makes to the callbacks it was given. */
  datatype Effect =
    | Created(event: CalendarEvent)        // onEventCreate
    | Updated(event: CalendarEvent)        // onEventUpdate
    | Deleted(eventId: string)             // onEventDelete
    | ToggleSession(blockId: string, sessionId: string)  // onToggleSessionCompletion

  /** `courses.length > 0 ? courses[0].id : ""`. */
  function DefaultCourseId(courses: seq<Course>): (id: string)
    ensures courses != [] ==> id == courses[0].id
    ensures courses == [] ==> id == ""
  {
    if |courses| > 0 then courses[0].id else ""
  }

  /** `value || fallback` on an optional string: "" and `undefined` are both falsy. */
  function OrElse(value: Option<string>, fallback: string): (r: string)
    ensures value.Some? && value.value != "" ==> r == value.value
    ensures value.None? || value.value == "" ==> r == fallback
  {
    if value.Some? && value.value != "" then value.value else fallback
  }

  /** The form `resetForm` writes: empty except the "work" category and the default course. */
  function BlankForm(courses: seq<Course>): FormData {
    FormData("", "", "work", "", "", 0, DefaultCourseId(courses))
  }

  /** The guard of `handleSaveEvent`: a title that is not all white space and a course. */
  predicate CanSave(form: FormData)
    ensures CanSave(form) <==> form.courseId != "" && exists i :: 0 <= i < |form.title| && !IsJsWhitespace(form.title[i])
  {
    Trim(form.title) != "" && form.courseId != ""
  }

  /** `eventData` of `handleSaveEvent`: the form's fields, the colour of its
      category, and the id and study-session references of the event being
      edited; a new event takes `Date.now().toString()` as its id. */
  function SavedEvent(form: FormData, editing: Option<CalendarEvent>, now: nat): (e: CalendarEvent)
    ensures e.id != ""
    ensures editing.Some? && editing.value.id != "" ==> e.id == editing.value.id
    ensures editing.Some? && editing.value.id == "" ==> e.id == NatToString(now)
    ensures editing.Some? ==> e.blockId == editing.value.blockId && e.sessionId == editing.value.sessionId
    ensures editing.None? ==> e.id == NatToString(now) && e.blockId.None? && e.sessionId.None?
    ensures e.title == form.title && e.description == form.description && e.category == form.category
    ensures e.startTime == form.startTime && e.endTime == form.endTime && e.day == form.day
    ensures e.courseId == Some(form.courseId) && e.color == CategoryColor(form.category)
  {
    CalendarEvent(
      OrElse(if editing.Some? then Some(editing.value.id) else None, IntToString(now)),
      form.title,
      form.description,
      form.startTime,
      form.endTime,
      form.day,
      form.category,
      CategoryColor(form.category),
      if editing.Some? then editing.value.blockId else None,
      if editing.Some? then editing.value.sessionId else None,
      Some(form.courseId))
  }

  /** The form `handleEventClick` fills from an event; an event without a course takes `defaultCourse`. */
  function EventForm(e: CalendarEvent, defaultCourse: string): FormData {
    FormData(e.title, e.description, e.category, e.startTime, e.endTime, e.day, OrElse(e.courseId, defaultCourse))
  }

  /** A saved event opened again in the dialog shows the form it was saved from,
      whatever the default course: a form that passes the guard has a course. */
  lemma SavedEventReopens(form: FormData, editing: Option<CalendarEvent>, now: nat, defaultCourse: string)
    requires CanSave(form)
    ensures EventForm(SavedEvent(form, editing, now), defaultCourse) == form
  {
  }

  /** `handleToggleCompletion(event)`: asks for the toggle only when the event
      has a non-empty block id and a non-empty session id, and changes nothing itself. */
  method HandleToggleCompletion(e: CalendarEvent) returns (effect: Option<Effect>)
    ensures effect.Some? <==> e.blockId.Some? && e.blockId.value != "" && e.sessionId.Some? && e.sessionId.value != ""
    ensures effect.Some? ==> effect.value == ToggleSession(e.blockId.value, e.sessionId.value)
  {
    if e.blockId.Some? && e.blockId.value != "" && e.sessionId.Some? && e.sessionId.value != "" {
      effect := Some(ToggleSession(e.blockId.value, e.sessionId.value));
    } else {
      effect := None;
    }
  }

  class WeeklyScheduler {
    // Props. `weekdayOf` stands for `new Date(block.date).getDay()`.
    const timeSlotInterval: Interval
    const startHour: int
    const endHour: int
    const weekdayOf: string -> Weekday
    var studyBlocks: seq<StudyBlock>
    var courses: seq<Course>

    /** `generateTimeSlots(startHour, endHour, timeSlotInterval)`, fixed by the props above. */
    const timeSlots: seq<TimeSlot>

    // Local state.
    var events: seq<CalendarEvent>
    var currentWeek: seq<int>
    var selectedSlot: Option<Cell>
    var isDialogOpen: bool
    var editingEvent: Option<CalendarEvent>
    var drag: DragState
    var formData: FormData

    /** The axis is the one `generateTimeSlots` builds and the header shows a Sunday-to-Saturday week. */
    ghost predicate Valid()
      reads this`currentWeek
    {
      && |timeSlots| == SlotCount(startHour, endHour, timeSlotInterval)
      && (forall k :: 0 <= k < |timeSlots| ==> timeSlots[k] == SlotAt(startHour, timeSlotInterval, k))
      && IsWeek(currentWeek)
    }

    /** The first render, on day number `today`. */
    constructor(blocks: seq<StudyBlock>, cs: seq<Course>, interval: Interval, firstHour: int, lastHour: int,
                weekday: string -> Weekday, today: int)
      ensures Valid()
      ensures timeSlotInterval == interval && startHour == firstHour && endHour == lastHour && weekdayOf == weekday
      ensures studyBlocks == blocks && courses == cs
      ensures events == ConvertStudyBlocksToEvents(blocks, weekday)
      ensures currentWeek[DayOfWeek(today)] == today
      ensures selectedSlot.None? && !isDialogOpen && editingEvent.None? && drag.Idle?
      ensures formData == FormData("", "", "work", "", "", 0, "")
    {
      var slots := GenerateTimeSlots(firstHour, lastHour, interval);
      var week := CurrentWeekDates(today);
      timeSlotInterval, startHour, endHour, weekdayOf := interval, firstHour, lastHour, weekday;
      timeSlots := slots;
      studyBlocks, courses := blocks, cs;
      events := ConvertStudyBlocksToEvents(blocks, weekday);
      currentWeek := week;
      selectedSlot, isDialogOpen, editingEvent, drag := None, false, None, Idle;
      formData := FormData("", "", "work", "", "", 0, "");
    }

    /** New `studyBlocks` or `courses` props: the effect rebuilds the whole event
        list from the blocks, dropping events made in the dialog. */
    method ReceiveProps(blocks: seq<StudyBlock>, cs: seq<Course>)
      requires Valid()
      modifies this`studyBlocks, this`courses, this`events
      ensures Valid()
      ensures studyBlocks == blocks && courses == cs
      ensures events == ConvertStudyBlocksToEvents(blocks, weekdayOf)
    {
      studyBlocks, courses := blocks, cs;
      events := ConvertStudyBlocksToEvents(blocks, weekdayOf);
    }

    /** `navigateWeek(direction)`. */
    method NavigateWeek(direction: Direction)
      requires Valid()
      modifies this`currentWeek
      ensures Valid()
      ensures currentWeek == ShiftWeek(old(currentWeek), direction)
    {
      ShiftKeepsWeek(currentWeek, direction);
      currentWeek := ShiftWeek(currentWeek, direction);
    }

    /** `handleSlotClick(day, time)`: a new one-hour event at the clicked cell. */
    method HandleSlotClick(day: int, time: string)
      requires Valid()
      modifies this`selectedSlot, this`formData, this`editingEvent, this`isDialogOpen
      ensures Valid()
      ensures selectedSlot == Some(Cell(day, time)) && editingEvent.None? && isDialogOpen
      ensures formData == FormData("", "", "work", time, MinutesToTimeOrNaN(AddMinutes(TimeToMinutes(time), 60)), day, DefaultCourseId(courses))
      ensures TimeToMinutes(time).Some? ==> TimeToMinutes(formData.endTime) == Some(TimeToMinutes(time).value + 60)
    {
      selectedSlot := Some(Cell(day, time));
      formData := FormData("", "", "work", time, MinutesToTimeOrNaN(AddMinutes(TimeToMinutes(time), 60)), day, DefaultCourseId(courses));
      editingEvent := None;
      isDialogOpen := true;
      if TimeToMinutes(time).Some? {
        ShiftedReadsBack(TimeToMinutes(time), 60);
      }
    }

    /** `handleEventClick(event)`: the dialog opens on the event; an event
        without a course takes the default course. */
    method HandleEventClick(e: CalendarEvent)
      requires Valid()
      modifies this`editingEvent, this`formData, this`isDialogOpen
      ensures Valid()
      ensures editingEvent == Some(e) && isDialogOpen
      ensures formData == EventForm(e, DefaultCourseId(courses))
    {
      editingEvent := Some(e);
      formData := FormData(e.title, e.description, e.category, e.startTime, e.endTime, e.day,
                           OrElse(e.courseId, DefaultCourseId(courses)));
      isDialogOpen := true;
    }

    /** `resetForm()`. */
    method ResetForm()
      requires Valid()
      modifies this`formData, this`editingEvent, this`selectedSlot
      ensures Valid()
      ensures formData == BlankForm(courses) && editingEvent.None? && selectedSlot.None?
    {
      formData := BlankForm(courses);
      editingEvent := None;
      selectedSlot := None;
    }

    /** `handleSaveEvent()` at time `now`: without a usable title or a course
        nothing happens; an edit replaces every event with the edited event's
        id, a new event is appended; then the dialog closes and the form resets. */
    method HandleSaveEvent(now: nat) returns (effect: Option<Effect>)
      requires Valid()
      modifies this`events, this`isDialogOpen, this`formData, this`editingEvent, this`selectedSlot
      ensures Valid()
      ensures !CanSave(old(formData)) ==> effect.None? && unchanged(this)
      ensures CanSave(old(formData)) ==>
                !isDialogOpen && formData == BlankForm(courses) && editingEvent.None? && selectedSlot.None?
      ensures CanSave(old(formData)) && old(editingEvent).Some? ==>
                events == ReplaceKey(old(events), EventId, old(editingEvent).value.id, SavedEvent(old(formData), old(editingEvent), now))
      ensures CanSave(old(formData)) && old(editingEvent).Some? ==>
                effect == Some(Updated(SavedEvent(old(formData), old(editingEvent), now)))
      ensures CanSave(old(formData)) && old(editingEvent).None? ==>
                events == old(events) + [SavedEvent(old(formData), None, now)]
      ensures CanSave(old(formData)) && old(editingEvent).None? ==>
                effect == Some(Created(SavedEvent(old(formData), None, now)))
    {
      if !CanSave(formData) {
        return None;
      }
      var eventData := SavedEvent(formData, editingEvent, now);
      if editingEvent.Some? {
        events := ReplaceKey(events, EventId, editingEvent.value.id, eventData);
        effect := Some(Updated(eventData));
      } else {
        events := events + [eventData];
        effect := Some(Created(eventData));
      }
      isDialogOpen := false;
      ResetForm();
    }

    /** `handleDeleteEvent()`: only while editing, removes every event with the
        edited event's id, then closes the dialog and resets the form. */
    method HandleDeleteEvent() returns (effect: Option<Effect>)
      requires Valid()
      modifies this`events, this`isDialogOpen, this`formData, this`editingEvent, this`selectedSlot
      ensures Valid()
      ensures old(editingEvent).None? ==> effect.None? && unchanged(this)
      ensures old(editingEvent).Some? ==>
                && events == RemoveKey(old(events), EventId, old(editingEvent).value.id)
                && effect == Some(Deleted(old(editingEvent).value.id))
                && !isDialogOpen && formData == BlankForm(courses) && editingEvent.None? && selectedSlot.None?
    {
      if editingEvent.None? {
        return None;
      }
      var id := editingEvent.value.id;
      events := RemoveKey(events, EventId, id);
      effect := Some(Deleted(id));
      isDialogOpen := false;
      ResetForm();
    }

    /** The "Add Study Session" button: a reset form in an open dialog. */
    method OpenNewEventDialog()
      requires Valid()
      modifies this`formData, this`editingEvent, this`selectedSlot, this`isDialogOpen
      ensures Valid()
      ensures formData == BlankForm(courses) && editingEvent.None? && selectedSlot.None? && isDialogOpen
    {
      ResetForm();
      isDialogOpen := true;
    }

    /** `setIsDialogOpen(open)`: the Cancel button and the dialog's own close. */
    method SetDialogOpen(open: bool)
      requires Valid()
      modifies this`isDialogOpen
      ensures Valid()
      ensures isDialogOpen == open
    {
      isDialogOpen := open;
    }

    /** The dialog's `onChange` handlers, each writing one field of the form. */
    method EditForm(edit: FieldEdit)
      requires Valid()
      modifies this`formData
      ensures Valid()
      ensures formData == EditedForm(old(formData), edit)
    {
      formData := EditedForm(formData, edit);
    }

    /** `handleMouseDown(e, day, time)`: the left button starts a drag at the cell; other buttons do nothing. */
    method HandleMouseDown(button: int, day: int, time: string)
      requires Valid()
      modifies this`drag
      ensures Valid()
      ensures button == 0 ==> drag == Selecting(Cell(day, time), Cell(day, time))
      ensures button != 0 ==> drag == old(drag)
    {
      if button == 0 {
        drag := Selecting(Cell(day, time), Cell(day, time));
      }
    }

    /** `handleMouseEnter(day, time)`: during a drag, the cell becomes its moving end. */
    method HandleMouseEnter(day: int, time: string)
      requires Valid()
      modifies this`drag
      ensures Valid()
      ensures old(drag).Selecting? ==> drag == Selecting(old(drag).anchor, Cell(day, time))
      ensures old(drag).Idle? ==> drag == Idle
    {
      if drag.Selecting? {
        drag := Selecting(drag.anchor, Cell(day, time));
      }
    }

    /** `handleMouseUp()`: a finished drag opens the dialog from the anchor's
        time to one interval past the moving end, in the anchor's column; the
        drag always ends. The event being edited, if any, stays in place. */
    method HandleMouseUp()
      requires Valid()
      modifies this`drag, this`formData, this`isDialogOpen
      ensures Valid()
      ensures drag == Idle
      ensures old(drag).Selecting? ==>
                && isDialogOpen
                && formData == FormData("", "", "work", old(drag).anchor.time,
                                        DragEndTime(old(drag).current, timeSlotInterval),
                                        old(drag).anchor.day, DefaultCourseId(courses))
      ensures old(drag).Idle? ==> formData == old(formData) && isDialogOpen == old(isDialogOpen)
    {
      if drag.Selecting? {
        formData := FormData("", "", "work", drag.anchor.time, DragEndTime(drag.current, timeSlotInterval),
                             drag.anchor.day, DefaultCourseId(courses));
        isDialogOpen := true;
      }
      drag := Idle;
    }

    /** `isSlotSelected(day, time)` on the current drag. */
    function SlotSelected(day: int, time: string): (selected: bool)
      reads this
      ensures selected ==> drag.Selecting? && day == drag.anchor.day
    {
      IsSlotSelected(drag, day, time)
    }
  }
}
