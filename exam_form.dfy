/**
 * The exam form: its fields, the topic list it edits without duplicates,
 * the `datetime-local` spelling of the exam's date, and the exam record it
 * submits.
 */
module ExamForm {
  import opened Wrappers
  import opened Strings
  import opened Types

  /** The local calendar fields `format` reads off a `Date`; `month0` is `getMonth()`, counted from 0. */
  datatype LocalTime = LocalTime(year: int, month0: int, day: int, hours: int, minutes: int)

  /** The ranges `getMonth`, `getDate`, `getHours` and `getMinutes` return. */
  predicate ValidLocal(t: LocalTime) {
    0 <= t.month0 < 12 && 1 <= t.day <= 31 && 0 <= t.hours < 24 && 0 <= t.minutes < 60
  }

  /** Exactly two digits, worth `v`. */
  predicate TwoDigitsWorth(p: string, v: int) {
    |p| == 2 && IsDigit(p[0]) && IsDigit(p[1]) && DigitValue(p[0]) * 10 + DigitValue(p[1]) == v
  }

  /** `format(date)`: `${year}-${month}-${day}T${hours}:${minutes}`, the month
      counted from 1 and the last four fields zero-padded to two digits. */
  function Format(t: LocalTime): (r: string)
    ensures ValidLocal(t) ==>
              var n := |IntToString(t.year)|;
              && |r| == n + 12 && r[..n] == IntToString(t.year)
              && r[n] == '-' && r[n + 3] == '-' && r[n + 6] == 'T' && r[n + 9] == ':'
              && TwoDigitsWorth(r[n + 1..n + 3], t.month0 + 1) && TwoDigitsWorth(r[n + 4..n + 6], t.day)
              && TwoDigitsWorth(r[n + 7..n + 9], t.hours) && TwoDigitsWorth(r[n + 10..], t.minutes)
  {
    var y := IntToString(t.year);
    var mo, d := PadStart2(IntToString(t.month0 + 1)), PadStart2(IntToString(t.day));
    var h, mi := PadStart2(IntToString(t.hours)), PadStart2(IntToString(t.minutes));
    var date, time := y + "-" + mo + "-" + d, h + ":" + mi;
    if ValidLocal(t) then
      PaddedTwoDigitsValue(t.month0 + 1);
      PaddedTwoDigitsValue(t.day);
      PaddedTwoDigitsValue(t.hours);
      PaddedTwoDigitsValue(t.minutes);
      FormatLayout(y, mo, d, h, mi);
      date + "T" + time
    else
      date + "T" + time
  }

  /** Where the pieces of `Y-MM-DDTHH:MM` sit when each of the last four is two characters. */
  lemma FormatLayout(y: string, mo: string, d: string, h: string, mi: string)
    requires |mo| == 2 && |d| == 2 && |h| == 2 && |mi| == 2
    ensures var r, n := (y + "-" + mo + "-" + d) + "T" + (h + ":" + mi), |y|;
            && |r| == n + 12 && r[..n] == y
            && r[n] == '-' && r[n + 3] == '-' && r[n + 6] == 'T' && r[n + 9] == ':'
            && r[n + 1..n + 3] == mo && r[n + 4..n + 6] == d && r[n + 7..n + 9] == h && r[n + 10..] == mi
  {
    var r, n := (y + "-" + mo + "-" + d) + "T" + (h + ":" + mi), |y|;
    assert r == y + (['-'] + mo + ['-'] + d + ['T'] + h + [':'] + mi);
  }

  /** A reference reader of the `YYYY-MM-DDTHH:MM` shape, the month counted from 0 again:
      the form itself never parses, and this reader exists to state that `Format` loses nothing. */
  function ReadFormatted(s: string): Option<LocalTime> {
    var halves := Split(s, 'T');
    if |halves| != 2 then None
    else
      var d := Split(halves[0], '-');
      var c := Split(halves[1], ':');
      if |d| != 3 || |c| != 2 then None
      else
        var year, month, day, hours, minutes := JsNumber(d[0]), JsNumber(d[1]), JsNumber(d[2]), JsNumber(c[0]), JsNumber(c[1]);
        if year.Some? && month.Some? && day.Some? && hours.Some? && minutes.Some? then
          Some(LocalTime(year.value, month.value - 1, day.value, hours.value, minutes.value))
        else None
  }

  /** A number's padded spelling has no separator in it and reads back as the number. */
  lemma PaddedPiece(n: nat)
    ensures AllDigits(PadStart2(IntToString(n)))
    ensures JsNumber(PadStart2(IntToString(n))) == Some(n)
    ensures 'T' !in PadStart2(IntToString(n)) && '-' !in PadStart2(IntToString(n)) && ':' !in PadStart2(IntToString(n))
  {
    PaddedNumber(n);
    DigitsHaveNoSeparator(PadStart2(IntToString(n)), 'T');
    DigitsHaveNoSeparator(PadStart2(IntToString(n)), '-');
    DigitsHaveNoSeparator(PadStart2(IntToString(n)), ':');
  }

  /** The year's spelling has no separator in it and reads back as the year. */
  lemma YearPiece(n: nat)
    ensures JsNumber(IntToString(n)) == Some(n)
    ensures 'T' !in IntToString(n) && '-' !in IntToString(n)
  {
    NatToStringValue(n);
    DigitsHaveNoSeparator(IntToString(n), 'T');
    DigitsHaveNoSeparator(IntToString(n), '-');
  }

  /** The date half `Y-M-D` splits on '-' into its three pieces. */
  lemma SplitDate(y: string, m: string, d: string)
    requires '-' !in y && '-' !in m && '-' !in d
    ensures Split(y + "-" + m + "-" + d, '-') == [y, m, d]
  {
    assert y + "-" + m + "-" + d == y + ['-'] + (m + ['-'] + d);
    SplitAtFirst(y, m + ['-'] + d, '-');
    SplitPair(m, d, '-');
  }

  /** Formatting a date with a non-negative year and reading it back gives the date again. */
  lemma FormatReadsBack(t: LocalTime)
    requires ValidLocal(t) && t.year >= 0
    ensures ReadFormatted(Format(t)) == Some(t)
  {
    var y, mo, d := IntToString(t.year), PadStart2(IntToString(t.month0 + 1)), PadStart2(IntToString(t.day));
    var h, mi := PadStart2(IntToString(t.hours)), PadStart2(IntToString(t.minutes));
    YearPiece(t.year);
    PaddedPiece(t.month0 + 1);
    PaddedPiece(t.day);
    PaddedPiece(t.hours);
    PaddedPiece(t.minutes);
    var date, time := y + "-" + mo + "-" + d, h + ":" + mi;
    SplitPair(date, time, 'T');
    SplitDate(y, mo, d);
    SplitPair(h, mi, ':');
  }

  /** No topic occurs twice. */
  predicate NoDuplicates(topics: seq<string>) {
    forall i, j :: 0 <= i < j < |topics| ==> topics[i] != topics[j]
  }

  /** The new `topics` of `addTopic()` on input `newTopic`: its trimmed value
      appended, unless that is empty or already listed. */
  function AddedTopics(topics: seq<string>, newTopic: string): (r: seq<string>)
    ensures r == topics <==> Trim(newTopic) == "" || Trim(newTopic) in topics
    ensures r != topics ==> r == topics + [Trim(newTopic)]
    ensures NoDuplicates(topics) ==> NoDuplicates(r)
  {
    var topic := Trim(newTopic);
    if topic != "" && topic !in topics then topics + [topic] else topics
  }

  /** `topics.filter((_, i) => i !== index)`: the element at `index` left out
      and the others in order; nothing left out when `index` is not a position of the list. */
  function RemoveAt(topics: seq<string>, index: int): (r: seq<string>)
    ensures 0 <= index < |topics| ==> |r| == |topics| - 1
    ensures 0 <= index < |topics| ==> forall k :: 0 <= k < |r| ==> r[k] == topics[if k < index then k else k + 1]
    ensures !(0 <= index < |topics|) ==> r == topics
  {
    if 0 <= index < |topics| then topics[..index] + topics[index + 1..] else topics
  }
  /** Removing takes exactly one occurrence of the removed topic away and keeps every other. */
  lemma RemoveAtMultiset(topics: seq<string>, index: int)
    requires 0 <= index < |topics|
    ensures multiset(RemoveAt(topics, index)) + multiset{topics[index]} == multiset(topics)
  {
    assert topics == topics[..index] + [topics[index]] + topics[index + 1..];
  }
  /** Removing a topic keeps the list free of duplicates, and the removed topic is gone. */
  lemma RemoveAtKeepsDistinct(topics: seq<string>, index: int)
    requires NoDuplicates(topics)
    requires 0 <= index < |topics|
    ensures NoDuplicates(RemoveAt(topics, index))
    ensures topics[index] !in RemoveAt(topics, index)
  {
    var r := RemoveAt(topics, index);
    forall i, j | 0 <= i < j < |r| ensures r[i] != r[j] {
      var i', j' := if i < index then i else i + 1, if j < index then j else j + 1;
      assert r[i] == topics[i'] && r[j] == topics[j'];
    }
    forall k | 0 <= k < |r| ensures r[k] != topics[index] {
      var k' := if k < index then k else k + 1;
      assert r[k] == topics[k'];
    }
  }

  /** `updatedExam` of `handleSubmit`: the form's fields, the date through
      `toIso` (`new Date(date).toISOString()`), and the edited exam's id, or
      `exam-` and the time `now` when there is no edited exam or its id is empty. */
  function SubmittedExam(existing: Option<Exam>, courseId: string, title: string, date: string,
                         importance: Importance, topics: seq<string>, now: nat, toIso: string -> string): (e: Exam)
    ensures e.id != ""
    ensures existing.Some? && existing.value.id != "" ==> e.id == existing.value.id
    ensures existing.None? || existing.value.id == "" ==> e.id == "exam-" + NatToString(now)
    ensures e.courseId == courseId && e.title == title && e.date == toIso(date)
    ensures e.importance == importance && e.topics == topics
  {
    var id := if existing.Some? && existing.value.id != "" then existing.value.id else "exam-" + IntToString(now);
    Exam(id, courseId, title, toIso(date), importance, topics)
  }

  class ExamFormState {
    var title: string
    var courseId: string
    var date: string
    var importance: Importance
    var topics: seq<string>
    var newTopic: string

    /** The initial state: everything empty, importance 2. */
    constructor()
      ensures title == "" && courseId == "" && date == "" && importance == 2 && topics == [] && newTopic == ""
    {
      title, courseId, date, importance, topics, newTopic := "", "", "", 2, [], "";
    }

    /** The effect on `exam` and `courses`: an exam fills the form, the date
        formatted from its local fields (`localTimeOf` stands for `new Date(exam.date)`);
        without an exam the first course becomes the default, if there is one. */
    method Initialise(exam: Option<Exam>, courses: seq<Course>, localTimeOf: string -> LocalTime)
      modifies this`title, this`courseId, this`date, this`importance, this`topics
      ensures exam.Some? ==>
                && title == exam.value.title && courseId == exam.value.courseId
                && date == Format(localTimeOf(exam.value.date))
                && importance == exam.value.importance && topics == exam.value.topics
      ensures exam.None? && courses != [] ==>
                courseId == courses[0].id && title == old(title) && date == old(date)
                && importance == old(importance) && topics == old(topics)
      ensures exam.None? && courses == [] ==> unchanged(this)
    {
      if exam.Some? {
        title := exam.value.title;
        courseId := exam.value.courseId;
        date := Format(localTimeOf(exam.value.date));
        importance := exam.value.importance;
        topics := exam.value.topics;
      } else if |courses| > 0 {
        courseId := courses[0].id;
      }
    }

    /** The title input's `onChange`. */
    method SetTitle(input: string)
      modifies this`title
      ensures title == input
    {
      title := input;
    }

    /** The course select's `onChange`. */
    method SetCourseId(input: string)
      modifies this`courseId
      ensures courseId == input
    {
      courseId := input;
    }

    /** The date input's `onChange`: the `datetime-local` text, kept as typed. */
    method SetDate(input: string)
      modifies this`date
      ensures date == input
    {
      date := input;
    }

    /** The importance select's `onChange`, given the number of the chosen option. */
    method SetImportance(value: Importance)
      modifies this`importance
      ensures importance == value
    {
      importance := value;
    }

    /** The topic input's `onChange`. */
    method SetNewTopic(input: string)
      modifies this`newTopic
      ensures newTopic == input
    {
      newTopic := input;
    }

    /** `addTopic()`: a successful add also clears the input. */
    method AddTopic()
      modifies this`topics, this`newTopic
      ensures topics == AddedTopics(old(topics), old(newTopic))
      ensures newTopic == if topics == old(topics) then old(newTopic) else ""
    {
      var topic := Trim(newTopic);
      if topic != "" && topic !in topics {
        topics := topics + [topic];
        newTopic := "";
      }
    }

    /** `removeTopic(index)`. */
    method RemoveTopic(index: int)
      modifies this`topics
      ensures topics == RemoveAt(old(topics), index)
    {
      topics := RemoveAt(topics, index);
    }

    /** `handleSubmit()`: the record passed to `onSubmit`; the form itself does not change. */
    method HandleSubmit(existing: Option<Exam>, now: nat, toIso: string -> string) returns (e: Exam)
      ensures e == SubmittedExam(existing, courseId, title, date, importance, topics, now, toIso)
    {
      e := SubmittedExam(existing, courseId, title, date, importance, topics, now, toIso);
    }
  }
}
