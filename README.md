# Study planner core in Dafny

This project models the logic of a React study planner. The planner keeps
courses, assignments, exams and study blocks in an in-memory store. It shows
the study sessions on a weekly calendar, where events can be created, edited,
deleted and drag-selected. It also derives the figures the dashboard, the
course and exam cards and the completion chart display.

How each part is modelled:

- **Store and components.** `AppStore.Store` is the provider's state with its
  update operations. `Scheduler.WeeklyScheduler`, `ExamForm.ExamFormState`,
  `AssignmentsPage.AssignmentsView` and `ExamsPage.ExamsView` hold the local
  state of the components. Each `useState` slot is a field, and each handler,
  including every input's `onChange`, is a method that changes only the
  fields it sets. The calendar dialog's inputs are one method,
  `Scheduler.WeeklyScheduler.EditForm`, tagged with the field they write.
- **Callbacks.** A call the calendar makes to `onEventCreate`, `onEventUpdate`,
  `onEventDelete` or `onToggleSessionCompletion` is returned as an `Effect`
  value.
- **Pure computations.** Filters, sorts, the time-slot axis, the time
  arithmetic, the session-to-event conversion and the labels are functions.
  The lemmas beside them state their properties.
- **The loops.** The two loops that build a list are methods with loop
  invariants:
  - `generateTimeSlots` is `TimeSlots.GenerateTimeSlots`, proved against the
    closed-form row `TimeSlots.SlotAt`;
  - `getCurrentWeekDates` is `WeekDates.CurrentWeekDates`, proved to give
    `week[i] == today - DayOfWeek(today) + i` for each of the seven days, and
    so a week (`WeekDates.IsWeek`) holding today at its weekday's position.
- **JavaScript semantics** are written out where they matter:
  - `Number(...)` and the `NaN` it can produce are an `Option`, and every
    comparison with `NaN` is false.
  - `%` keeps the sign of its left operand (`Minutes.JsRemainder60`).
  - `split`, `trim` and `padStart` are modelled character by character.
  - `""` and `undefined` are falsy in `||` and in guards.
- **The clock and dates.** The current time and every date parse are
  parameters:
  - `now` is an integer time; `today` is a day number, or an ISO date string.
  - `weekdayOf` stands for `new Date(d).getDay()`.
  - `toTime`, `dueTime` and `examTime` stand for `new Date(d).getTime()` and
    `parseISO(d)`. One parameter serves both, so the two parsers are assumed
    to agree.
  - `localTimeOf` gives the local calendar fields of a date.
  - `toIso` stands for `new Date(d).toISOString()`.

## Model

| member | source | states |
|---|---|---|
| Types.SessionTypeNamesDistinct | src/types/index.ts:52 | the four session type names are pairwise different, so a name identifies its type |
| Types.AllSessions | src/components/analytics/CompletionRateChart.tsx:22 | `flatMap` holds a session exactly when some block holds it |
| Strings.NatToStringValue | src/components/schedule/WeeklyScheduler.tsx:133 | the decimal digits `toString` writes for a non-negative number have that number as their value |
| Strings.PaddedTwoDigitsValue | src/components/schedule/WeeklyScheduler.tsx:133 | `padStart(2, '0')` of a number below 100 is two digits whose value is the number |
| Strings.JoinSplit | src/components/schedule/WeeklyScheduler.tsx:126 | `split` on a separator, then re-joining with it, gives the original string back |
| Strings.SplitJoin | src/components/schedule/WeeklyScheduler.tsx:126 | pieces without the separator, joined and split again, come back unchanged |
| Strings.Trim | src/components/schedule/WeeklyScheduler.tsx:265 | `trim()` is the slice of its input that starts after the leading white space, with only white space after it; it starts and ends with a non-space character and is empty exactly when every character is ECMAScript white space |
| Strings.TrimIdempotent | src/components/exams/ExamForm.tsx:65 | trimming a trimmed string changes nothing |
| Seqs.Filter | src/pages/Assignments.tsx:41-45 | `filter` keeps exactly the elements satisfying the predicate and is no longer than its input |
| Seqs.FilterPartition | src/pages/Assignments.tsx:41-45 | a predicate and its negation split a list: their two filtered lengths add up to the whole |
| Seqs.FilterMultiset | src/pages/Assignments.tsx:41-45 | each element satisfying the predicate is kept as often as it occurs, and every other one is dropped |
| Seqs.FindFirst | src/components/schedule/WeeklyScheduler.tsx:79 | `find` returns the first element satisfying the predicate, and `undefined` exactly when none does |
| Seqs.ReplaceKey | src/context/AppContext.tsx:62-66 | `map(x => x.id === id ? y : x)` keeps the length and replaces exactly the elements with that id |
| Seqs.ReplaceAbsentKey | src/context/AppContext.tsx:62-66 | an update whose id is not in the list leaves the list unchanged |
| Seqs.RemoveKey | src/context/AppContext.tsx:68-70 | `filter(x => x.id !== id)` keeps every occurrence of the elements with another id and drops all with that id |
| Seqs.RemoveAppended | src/context/AppContext.tsx:58-70 | deleting an item just added under a fresh id gives the list as it was before the add |
| Seqs.SortByKey | src/pages/Assignments.tsx:48-50 | the copy sorted by a numeric key is ordered by it and is a permutation of its input |
| Seqs.InsertSorted | src/pages/Assignments.tsx:48-50 | inserting into a sorted list keeps it sorted (the step of the sort) |
| Minutes.TimeToMinutes | src/components/schedule/WeeklyScheduler.tsx:125-128 | `timeToMinutes` is a number exactly when the first two ':'-pieces are digit strings, and that number is not negative |
| Minutes.MinutesToTime | src/components/schedule/WeeklyScheduler.tsx:130-134 | below 100 hours, `minutesToTime` writes two digits, ':' and two digits |
| Minutes.JsRemainder60 | src/components/schedule/WeeklyScheduler.tsx:132 | JavaScript's `% 60` takes the dividend's sign and differs from Dafny's remainder on negative counts |
| Minutes.MinutesRoundTrip | src/components/schedule/WeeklyScheduler.tsx:125-134 | `timeToMinutes(minutesToTime(m)) == m` for every non-negative minute count |
| Minutes.MinutesToTimeIsClockTime | src/components/schedule/WeeklyScheduler.tsx:130-134 | within a day, `minutesToTime` writes a zero-padded 24-hour "HH:MM" |
| Minutes.ClockTimeRoundTrip | src/components/schedule/WeeklyScheduler.tsx:125-134 | every "HH:MM" clock time reads as a count under 1440, and `minutesToTime` writes that count back as the same text |
| TimeSlots.GenerateTimeSlots | src/components/schedule/WeeklyScheduler.tsx:83-108 | the loop builds exactly `SlotCount` rows and row k is the k-th step of `interval` minutes from `startHour:00`, including the single `endHour:00` row at the end of a half-hour grid |
| TimeSlots.SlotAtMinutes | src/components/schedule/WeeklyScheduler.tsx:83-108 | row k starts `startHour * 60 + k * interval` minutes into the day, on a whole or half hour |
| TimeSlots.SlotsIncreasing | src/components/schedule/WeeklyScheduler.tsx:83-108 | the axis rows are strictly increasing in time |
| TimeSlots.FirstAndLastSlot | src/components/schedule/WeeklyScheduler.tsx:83-108 | the axis starts at `startHour:00` and ends at `endHour:00` |
| TimeSlots.SlotDisplayIsMinutesToTime | src/components/schedule/WeeklyScheduler.tsx:90-103 | a row's label is `minutesToTime` of its minute count |
| TimeSlots.SlotDisplayReadsBack | src/components/schedule/WeeklyScheduler.tsx:90-103 | every row's label reads back under `timeToMinutes` as that row's minute count |
| TimeSlots.HourlyDayGrid | src/components/schedule/WeeklyScheduler.tsx:143-145 | the default props, hourly from 8 to 20, give 13 rows from "08:00" to "20:00" |
| TimeSlots.HalfHourDayGrid | src/components/schedule/WeeklyScheduler.tsx:83-108 | the same 8-to-20 day on a half-hour grid has 25 rows, the last labelled "20:00" |
| WeekDates.CurrentWeekDates | src/components/schedule/WeeklyScheduler.tsx:110-123 | the loop builds seven consecutive days from the Sunday on or before today, with today at its own weekday's position |
| WeekDates.SundayStart | src/components/schedule/WeeklyScheduler.tsx:112-114 | going back `getDay()` days lands on a Sunday |
| WeekDates.ShiftWeek | src/components/schedule/WeeklyScheduler.tsx:226-233 | `navigateWeek` moves every date by seven days, forward for 'next' and back for 'prev' |
| WeekDates.ShiftRoundTrip | src/components/schedule/WeeklyScheduler.tsx:226-233 | 'next' then 'prev', or 'prev' then 'next', restores the week |
| WeekDates.ShiftKeepsWeek | src/components/schedule/WeeklyScheduler.tsx:226-233 | a shifted week is still seven consecutive days from a Sunday |
| Categories.CategoryValuesDistinct | src/components/schedule/WeeklyScheduler.tsx:70-76 | no two entries of the category table share a value |
| Categories.ColorInTable | src/components/schedule/WeeklyScheduler.tsx:78-81 | the first-match lookup on a table without repeated values gives the entry with that value, and the fallback exactly when none has it |
| Categories.CategoryColor | src/components/schedule/WeeklyScheduler.tsx:78-81 | `getCategoryColor` gives the colour of the listed category, "bg-gray-500" for an unlisted one, and always one of the table's colours |
| Categories.CategoryColorTotal | src/components/schedule/WeeklyScheduler.tsx:70-81 | every category string is coloured with one of the five table colours |
| Categories.CategoryOfType | src/components/schedule/WeeklyScheduler.tsx:161-168 | the `switch` maps the four session type names to their categories and any other string to "other" |
| Categories.SessionTypeCategory | src/components/schedule/WeeklyScheduler.tsx:161-168 | a typed session never falls to "other", and its category is one of the first four table entries |
| Categories.SessionTypeCategoryInjective | src/components/schedule/WeeklyScheduler.tsx:161-168 | different session types map to different categories |
| Calendar.TimeOfDay | src/components/schedule/WeeklyScheduler.tsx:157-158 | a session time with no 'T' falls back to "00:00" |
| Calendar.TimeOfDayOfIso | src/components/schedule/WeeklyScheduler.tsx:157-175 | an ISO timestamp `dateThh:mm:rest` becomes "hh:mm" |
| Calendar.TimeOfDayWithoutColon | src/components/schedule/WeeklyScheduler.tsx:157-175 | a time part with no ':' has an undefined minute piece, written "undefined" by the template |
| Calendar.SessionEvent | src/components/schedule/WeeklyScheduler.tsx:155-182 | a session's event is keyed `blockId-sessionId`, keeps the session's title and course, refers back to both ids, starts and ends at the time of day of the session's start and end, and takes the category of the session's type and that category's colour |
| Calendar.BlockEvents | src/components/schedule/WeeklyScheduler.tsx:150-155 | a block gives one event per session, in order, all on the block's weekday |
| Calendar.ConvertMatchesSessions | src/components/schedule/WeeklyScheduler.tsx:149-185 | `flatMap` gives exactly one event per session of all blocks, the i-th built from the i-th session and the block holding it |
| Calendar.ConvertStudyBlocksToEvents | src/components/schedule/WeeklyScheduler.tsx:149-185 | the conversion has as many events as there are sessions in all blocks |
| Geometry.EventsForDayAndTime | src/components/schedule/WeeklyScheduler.tsx:337-344 | an event covers a cell exactly when it is on that day and the slot's minute is in its half-open span, with `NaN` covering nothing |
| Geometry.EndSlotFree | src/components/schedule/WeeklyScheduler.tsx:342 | the cell at an event's end time is never covered by it |
| Geometry.StartSlotCovered | src/components/schedule/WeeklyScheduler.tsx:342 | the cell at an event's start is covered exactly when the event has a readable, positive span |
| Geometry.EventHeight | src/components/schedule/WeeklyScheduler.tsx:346-352 | the box height is the duration in slots times 60 pixels, and `NaN` when either time does not read |
| Geometry.EventTop | src/components/schedule/WeeklyScheduler.tsx:354-360 | the box offset is the start's distance from `startHour:00` in slots times 60 pixels |
| Geometry.NinetyMinuteBox | src/components/schedule/WeeklyScheduler.tsx:346-360 | a 14:00 to 15:30 event on the hourly grid from 8:00 is 90 pixels high and 360 pixels down |
| Selection.IsSlotSelected | src/components/schedule/WeeklyScheduler.tsx:398-408 | a cell is highlighted exactly when a drag is on, the cell is in the anchor's column, and its minute lies between the two ends' minutes, all three readable |
| Selection.SelectionSymmetric | src/components/schedule/WeeklyScheduler.tsx:405-407 | dragging up or down highlights the same cells |
| Selection.SelectionInAnchorColumn | src/components/schedule/WeeklyScheduler.tsx:405 | a drag that crosses into another column highlights nothing there |
| Selection.EndsSelected | src/components/schedule/WeeklyScheduler.tsx:398-408 | both ends of a drag over readable labels are highlighted |
| Selection.DragEndTime | src/components/schedule/WeeklyScheduler.tsx:380 | a drag whose last cell has an unreadable label proposes the end "NaN:NaN" |
| Selection.DragEndReadsBack | src/components/schedule/WeeklyScheduler.tsx:380 | a drag's proposed end reads back as the last cell's minute plus one interval |
| Scheduler.CanSave | src/components/schedule/WeeklyScheduler.tsx:265 | an event is saved exactly when its course is set and its title has a character that is not white space |
| Scheduler.SavedEvent | src/components/schedule/WeeklyScheduler.tsx:267-279 | the saved event always has an id: the edited event's id when it is not empty, otherwise `Date.now()`; an edited event keeps its block and session references, and a new one refers to no session; title, description, category, times and day are the form's, the course is the form's and the colour is the category's |
| Scheduler.SavedEventReopens | src/components/schedule/WeeklyScheduler.tsx:250-279 | opening a saved event again fills the dialog with the form it was saved from, whatever the default course |
| Scheduler.HandleToggleCompletion | src/components/schedule/WeeklyScheduler.tsx:317-321 | the toggle is requested exactly when the event has a non-empty block id and session id, and with those ids |
| Scheduler.WeeklyScheduler.constructor | src/components/schedule/WeeklyScheduler.tsx:187-209 | the first render: events converted from the blocks, the current week, the axis, a closed dialog, no drag and the initial form |
| Scheduler.WeeklyScheduler.ReceiveProps | src/components/schedule/WeeklyScheduler.tsx:212-214 | new blocks or courses rebuild the event list from the blocks |
| Scheduler.WeeklyScheduler.NavigateWeek | src/components/schedule/WeeklyScheduler.tsx:226-233 | the week moves by seven days and stays a Sunday-to-Saturday week |
| Scheduler.WeeklyScheduler.HandleSlotClick | src/components/schedule/WeeklyScheduler.tsx:235-248 | clicking a cell opens a new-event dialog there, with the default course and an end that reads back one hour after a readable start |
| Scheduler.WeeklyScheduler.HandleEventClick | src/components/schedule/WeeklyScheduler.tsx:250-262 | clicking an event opens the dialog on its fields (`EventForm`), and an event without a course takes the default course |
| Scheduler.WeeklyScheduler.HandleSaveEvent | src/components/schedule/WeeklyScheduler.tsx:264-300 | a blank title or missing course changes nothing; otherwise an edit replaces every event with the edited id and a new event is appended, the matching callback is requested, the dialog closes and the form resets |
| Scheduler.WeeklyScheduler.HandleDeleteEvent | src/components/schedule/WeeklyScheduler.tsx:302-315 | only while editing: every event with the edited id is removed, deletion of that id is requested, the dialog closes and the form resets |
| Scheduler.WeeklyScheduler.ResetForm | src/components/schedule/WeeklyScheduler.tsx:323-335 | the form is blank with the default course, nothing is edited and no slot is selected |
| Scheduler.WeeklyScheduler.OpenNewEventDialog | src/components/schedule/WeeklyScheduler.tsx:447-450 | the add button resets the form and opens the dialog |
| Scheduler.WeeklyScheduler.SetDialogOpen | src/components/schedule/WeeklyScheduler.tsx:445 | the dialog's own open and close set the flag |
| Scheduler.EditedForm | src/components/schedule/WeeklyScheduler.tsx:471-540 | an input writes its own field, every other field keeps its value, and no input writes the day |
| Scheduler.EditSameText | src/components/schedule/WeeklyScheduler.tsx:471-540 | an input given the text its field already holds leaves the form as it was |
| Scheduler.WeeklyScheduler.EditForm | src/components/schedule/WeeklyScheduler.tsx:471-540 | one input's `onChange` replaces the form by `EditedForm` of it and changes nothing else |
| Scheduler.WeeklyScheduler.HandleMouseDown | src/components/schedule/WeeklyScheduler.tsx:362-368 | the left button starts a drag at the cell and other buttons do nothing |
| Scheduler.WeeklyScheduler.HandleMouseEnter | src/components/schedule/WeeklyScheduler.tsx:370-374 | during a drag the entered cell becomes its moving end; otherwise nothing changes |
| Scheduler.WeeklyScheduler.HandleMouseUp | src/components/schedule/WeeklyScheduler.tsx:376-396 | a finished drag opens the dialog from the anchor's time to one interval past the last cell, in the anchor's column; the drag always ends |
| Scheduler.WeeklyScheduler.SlotSelected | src/components/schedule/WeeklyScheduler.tsx:398-408 | only the anchor's column of an active drag is ever highlighted |
| AppStore.ToggleSessions | src/context/AppContext.tsx:110-115 | inside a block, `completed` flips exactly on the sessions with that id; every other field and session is kept |
| AppStore.ToggleInBlocks | src/context/AppContext.tsx:106-120 | `completed` flips exactly on the sessions with that id inside blocks with that id; every other field, session and block is kept |
| AppStore.ToggleTwice | src/context/AppContext.tsx:106-120 | toggling the same session twice restores the blocks |
| AppStore.ToggleKeepsSessions | src/context/AppContext.tsx:106-120 | a toggle neither adds nor removes sessions |
| AppStore.BumpToday | src/context/AppContext.tsx:122-132 | every progress entry dated today gains one completed session, and nothing else changes |
| AppStore.BumpTodayTotal | src/context/AppContext.tsx:122-132 | the completed total rises by the number of entries dated today |
| AppStore.ToggledTheme | src/context/AppContext.tsx:144-152 | the theme flips and every other field of the user is kept |
| AppStore.ToggleThemeTwice | src/context/AppContext.tsx:144-152 | toggling the theme twice restores the user |
| AppStore.Store.constructor | src/context/AppContext.tsx:37-43 | the provider's state slots start from the given initial data |
| AppStore.Store.UpdateUser | src/context/AppContext.tsx:54-56 | the user is replaced |
| AppStore.Store.AddCourse | src/context/AppContext.tsx:58-60 | the course is appended |
| AppStore.Store.UpdateCourse | src/context/AppContext.tsx:62-66 | every course with the id is replaced |
| AppStore.Store.DeleteCourse | src/context/AppContext.tsx:68-70 | every course with the id is removed |
| AppStore.Store.AddAssignment | src/context/AppContext.tsx:72-74 | the assignment is appended |
| AppStore.Store.UpdateAssignment | src/context/AppContext.tsx:76-80 | every assignment with the id is replaced |
| AppStore.Store.DeleteAssignment | src/context/AppContext.tsx:82-84 | every assignment with the id is removed |
| AppStore.Store.AddExam | src/context/AppContext.tsx:86-88 | the exam is appended |
| AppStore.Store.UpdateExam | src/context/AppContext.tsx:90-94 | every exam with the id is replaced |
| AppStore.Store.DeleteExam | src/context/AppContext.tsx:96-98 | every exam with the id is removed |
| AppStore.Store.UpdateStudyBlock | src/context/AppContext.tsx:100-104 | every block with the id is replaced |
| AppStore.Store.ToggleSessionCompletion | src/context/AppContext.tsx:106-133 | the session's flag flips, today's progress entries gain one completed session, and their total rises by that count |
| AppStore.Store.ToggleTheme | src/context/AppContext.tsx:144-152 | the user's theme flips |
| ExamForm.Format | src/components/exams/ExamForm.tsx:39-47 | for in-range fields: the year's `toString`, then '-', '-', 'T' and ':' at fixed offsets, with month (counted from 1), day, hours and minutes each exactly two digits worth that field |
| ExamForm.FormatReadsBack | src/components/exams/ExamForm.tsx:39-47 | formatting a date with a non-negative year and reading it back with `ReadFormatted`, a reference reader of the `YYYY-MM-DDTHH:MM` shape, gives the same fields |
| ExamForm.AddedTopics | src/components/exams/ExamForm.tsx:64-69 | the list is unchanged exactly when the trimmed topic is empty or already present; otherwise the trimmed topic is appended, and a list without duplicates stays so |
| ExamForm.RemoveAt | src/components/exams/ExamForm.tsx:71-73 | the element at the index is left out and the rest kept in order; an index outside the list removes nothing |
| ExamForm.RemoveAtMultiset | src/components/exams/ExamForm.tsx:71-73 | removing takes exactly one occurrence of that topic away |
| ExamForm.RemoveAtKeepsDistinct | src/components/exams/ExamForm.tsx:71-73 | removal keeps the list free of duplicates and the removed topic is gone |
| ExamForm.SubmittedExam | src/components/exams/ExamForm.tsx:49-59 | the submitted exam always has an id, the edited exam's when truthy and `exam-` plus the time otherwise, and carries the form's fields, with the date converted to ISO |
| ExamForm.ExamFormState.constructor | src/components/exams/ExamForm.tsx:18-23 | the form starts empty with importance 2 |
| ExamForm.ExamFormState.Initialise | src/components/exams/ExamForm.tsx:25-37 | an exam fills the form with its date formatted; without one the first course, if any, becomes the default |
| ExamForm.ExamFormState.SetTitle | src/components/exams/ExamForm.tsx:100 | the title input writes `title` and nothing else |
| ExamForm.ExamFormState.SetCourseId | src/components/exams/ExamForm.tsx:113 | the course select writes `courseId` and nothing else |
| ExamForm.ExamFormState.SetDate | src/components/exams/ExamForm.tsx:133 | the date input writes `date` and nothing else |
| ExamForm.ExamFormState.SetImportance | src/components/exams/ExamForm.tsx:146 | the importance select writes `importance` and nothing else |
| ExamForm.ExamFormState.SetNewTopic | src/components/exams/ExamForm.tsx:163 | the topic input writes `newTopic` |
| ExamForm.ExamFormState.AddTopic | src/components/exams/ExamForm.tsx:64-69 | topics become `AddedTopics`, and the input clears only when a topic was added |
| ExamForm.ExamFormState.RemoveTopic | src/components/exams/ExamForm.tsx:71-73 | topics become `RemoveAt` of the index |
| ExamForm.ExamFormState.HandleSubmit | src/components/exams/ExamForm.tsx:49-62 | the record passed to `onSubmit` is `SubmittedExam` of the form, and the form is unchanged |
| Lookup.FindCourse | src/pages/Dashboard.tsx:45 | `courses.find` by id gives the first listed course with that id, and `undefined` exactly when none has it |
| Lookup.CourseOrFirst | src/pages/Assignments.tsx:108 | the first course with the id, or the first course when none matches, and `undefined` only for an empty list |
| Lookup.CourseField | src/pages/Dashboard.tsx:45-46 | the name or colour of the first course with the id when it is not empty; the fallback ("Unknown Course", "#6366f1") when no course has the id or its field is empty |
| CourseCard.DifficultyLabel | src/components/courses/CourseCard.tsx:11-20 | "Unknown" exactly outside 1 to 5, and otherwise one of the five labels |
| CourseCard.DifficultyLabelsDistinct | src/components/courses/CourseCard.tsx:11-20 | different difficulties get different labels, from "Very Easy" to "Very Difficult" |
| CourseCard.PriorityLabel | src/components/courses/CourseCard.tsx:22-29 | "Unknown" exactly outside 1 to 3, and otherwise one of the three labels |
| CourseCard.PriorityLabelsDistinct | src/components/courses/CourseCard.tsx:22-29 | different priorities get different labels, 1 being "High" |
| ExamCard.ImportanceLabel | src/components/exams/ExamCard.tsx:16-23 | "Unknown" exactly outside 1 to 3, and otherwise one of the three labels |
| ExamCard.IsUpcoming | src/components/exams/ExamCard.tsx:14 | the card marks an exam upcoming when now is strictly before its date; `ExamsPage.UpcomingIsCardMarker` ties it to the page's filter |
| ExamCard.ImportanceLabelsDistinct | src/components/exams/ExamCard.tsx:16-23 | different importances get different labels, 3 being "High" |
| AssignmentsPage.FilteredAssignments | src/pages/Assignments.tsx:41-45 | 'pending' keeps exactly the incomplete assignments, 'completed' exactly the completed ones and 'all' everything |
| AssignmentsPage.PendingAndCompletedSplit | src/pages/Assignments.tsx:41-45 | the pending and completed lists together hold every assignment |
| AssignmentsPage.SortedAssignments | src/pages/Assignments.tsx:48-50 | the shown list is a permutation of the filtered one, ordered by due date |
| AssignmentsPage.ToggledAssignment | src/pages/Assignments.tsx:24-29 | the copy has its `completed` flag flipped and every other field kept |
| AssignmentsPage.AssignmentsView.constructor | src/pages/Assignments.tsx:10-12 | the page starts with the form closed and every assignment shown |
| AssignmentsPage.AssignmentsView.HandleAdd | src/pages/Assignments.tsx:14-17 | the form opens on no assignment |
| AssignmentsPage.AssignmentsView.HandleEdit | src/pages/Assignments.tsx:19-22 | the form opens on the assignment |
| AssignmentsPage.AssignmentsView.HandleToggleComplete | src/pages/Assignments.tsx:24-29 | the store replaces the assignment with its toggled copy |
| AssignmentsPage.AssignmentsView.HandleSubmit | src/pages/Assignments.tsx:31-38 | while editing the store updates by id, otherwise it appends, and the form closes |
| AssignmentsPage.AssignmentsView.SetFilter | src/pages/Assignments.tsx:66 | the filter select sets the filter |
| ExamsPage.UpcomingIsCardMarker | src/pages/Exams.tsx:38 | the 'upcoming' filter keeps exactly what the exam card marks as upcoming |
| ExamsPage.FilteredExams | src/pages/Exams.tsx:35-41 | 'upcoming' keeps exactly the exams dated after now, 'past' exactly those dated before, and 'all' everything |
| ExamsPage.NowIsNeither | src/pages/Exams.tsx:35-41 | an exam dated exactly now is in neither list, so the two together hold at most all exams |
| ExamsPage.SortedExams | src/pages/Exams.tsx:44-46 | the shown list is a permutation of the filtered one, ordered by date |
| ExamsPage.ExamsView.constructor | src/pages/Exams.tsx:11-13 | the page starts with the form closed and the 'upcoming' filter |
| ExamsPage.ExamsView.HandleAdd | src/pages/Exams.tsx:15-18 | the form opens on no exam |
| ExamsPage.ExamsView.HandleEdit | src/pages/Exams.tsx:20-23 | the form opens on the exam |
| ExamsPage.ExamsView.HandleSubmit | src/pages/Exams.tsx:25-32 | while editing the store updates by id, otherwise it appends, and the form closes |
| ExamsPage.ExamsView.SetFilter | src/pages/Exams.tsx:62 | the filter select sets the filter |
| Dashboard.PendingAssignments | src/pages/Dashboard.tsx:20 | the number of assignments with `completed` false, which with the completed count makes all assignments |
| Dashboard.UpcomingExams | src/pages/Dashboard.tsx:21 | the upcoming count plus the number of exams dated at or before now is the number of exams, so it counts exactly the exams strictly after now; with the past count it is at most all exams |
| Dashboard.TodayBlock | src/pages/Dashboard.tsx:24-25 | the first block dated today, and `undefined` exactly when none is |
| Dashboard.TodayMillis | src/pages/Dashboard.tsx:26-33 | the sum of the end times of today's sessions minus the sum of their start times, 0 without a block dated today or without sessions |
| Dashboard.TodayHours | src/pages/Dashboard.tsx:26-33 | the hours are the milliseconds divided by 3 600 000, and 0 when no block is dated today |
| Dashboard.TodayMillisNonNegative | src/pages/Dashboard.tsx:26-33 | when no session of today's block ends before it starts, the total is not negative |
| Dashboard.OmittedNotEarlier | src/pages/Dashboard.tsx:38-39 | in a sorted list nothing past the first n has a key below one of the first n |
| Dashboard.SoonestPending | src/pages/Dashboard.tsx:36-39 | at most three pending assignments, as many as there are up to three, no one shown more often than it is pending, ordered by due date, with no pending assignment left out that is due before one shown |
| Dashboard.SoonestExams | src/pages/Dashboard.tsx:50-53 | at most three exams after now, as many as there are up to three, no one shown more often than it is upcoming, ordered by date, with no upcoming exam left out that is dated before one shown |
| Dashboard.UpcomingAssignments | src/pages/Dashboard.tsx:36-48 | one item per soonest pending assignment, in order, with its fields and its course's name and colour or their fallbacks |
| Dashboard.UpcomingExamsList | src/pages/Dashboard.tsx:50-62 | one item per soonest upcoming exam, in order, with its fields and its course's name and colour or their fallbacks |
| CompletionStats.TotalSessions | src/components/analytics/CompletionRateChart.tsx:23-24 | the number of sessions is the sum of the blocks' session counts |
| CompletionStats.CompletedSessions | src/components/analytics/CompletionRateChart.tsx:25 | the completed count never exceeds the total |
| CompletionStats.PendingSessions | src/components/analytics/CompletionRateChart.tsx:45 | the pending slice is the number of incomplete sessions, and with the completed ones it makes the total |
| CompletionStats.CompletionRate | src/components/analytics/CompletionRateChart.tsx:26 | 0 without sessions, otherwise the completed share times 100, always between 0 and 100 and 100 when all are completed |

## Left out

- Rendering: the JSX, styling, animation and icons are not modelled. The same holds for the other forms, the charts other than the completion ratio, the Gantt and day views, the layout, and the settings and profile forms.
- The document-level `mouseup` listener is not modelled. Its registration and removal (WeeklyScheduler.tsx:410-419) are lifecycle only; the handler it calls is `HandleMouseUp`.
- `draggedEvent` and `dragStartPos` are not fields of the model: they are declared but never set.
- The clock and the `Date` object are not modelled. `Date.now()`, `new Date()`, `getDay`, `getTime`, `parseISO`, `toISOString` and the local calendar fields are parameters. The `NaN` an invalid date gives is not modelled, and neither is the parsing behind those parameters.
- One `examTime` stands for both `parseISO(exam.date)` (the filters, Exams.tsx:37 and Dashboard.tsx:21, 51) and `new Date(exam.date).getTime()` (the sorts, Exams.tsx:45 and Dashboard.tsx:52). The two differ on a date-only string: `parseISO` reads it as local midnight, `new Date` as UTC midnight. The model sorts and filters with the same instant.
- The props `timeSlotInterval`, `startHour` and `endHour` are parameters of the scheduler; their defaults 60, 8 and 20 (WeeklyScheduler.tsx:143-145) are stated by `TimeSlots.HourlyDayGrid`.
- ExamForm.ExamFormState.SetImportance: it takes the chosen option's number, one of 1, 2 and 3. `Number(e.target.value)` on the option text and the unchecked `as 1 | 2 | 3` cast are not modelled, because the select offers only those three values.
- `getCurrentTime` and `isToday` only decide highlighting in the markup, so they are not modelled.
- Floating point is not modelled. Division is exact rational arithmetic on `real`, and display rounding such as `toFixed` is not modelled.
- `Number` on strings with signs, white space, fractions or exponents is not modelled: only digit strings, and the empty string as 0.
- The `courses.find` inside `convertStudyBlocksToEvents` is not modelled, because its result is never used.
- `StudySession` has no `description`, so the conversion's `session.description || ''` is always "".
- `regenerateSchedule` is not modelled: it shuffles with `Math.random`.
- The theme's DOM side effect is not modelled, nor the `useAppContext` guard that throws outside the provider.
- The `console.log` calls are not modelled.
- `mockData` is not modelled: the store's constructor takes the initial data as parameters.
- Session and type names the TypeScript types exclude cannot occur, because `SessionType` is a closed datatype.
- Strings.PadStart2: its own contract states only the length. Its contents are stated by `PadStart2Zeros` and `PaddedTwoDigits`.
- Dashboard.TodayMillisNonNegative: it bounds the total only when no session ends before it starts, because a date parameter can order the two either way.
- AppStore.Store: each setter of the provider builds its new list from the state of the render it was called in (`[...courses, course]`), so two calls in one handler keep only the last. The store's methods instead apply one after the other; batching of React state updates is not modelled.
