/**
 * The exams page: the upcoming/past filter against the current time, the
 * list sorted by date, and the handlers that pass the form's result to the store.
 */
module ExamsPage {
  import opened Wrappers
  import opened Seqs
  import opened Types
  import opened AppStore
  import opened ExamCard

  /** The filter select: `'all' | 'upcoming' | 'past'`. */
  datatype TimeFilter = AllExams | Upcoming | Past

  /** The filter callback on an exam dated `examTime`, with `isBefore` strict. */
  predicate Passes(filter: TimeFilter, now: int, examTime: int) {
    match filter
    case Upcoming => now < examTime
    case Past => examTime < now
    case AllExams => true
  }

  /** The upcoming filter keeps exactly what the exam card marks as upcoming. */
  lemma UpcomingIsCardMarker(now: int, examTime: int)
    ensures Passes(Upcoming, now, examTime) <==> IsUpcoming(now, examTime)
  {
  }

  /** `filteredExams` at time `now`; `examTime` stands for `parseISO(exam.date)`. */
  function FilteredExams(exams: seq<Exam>, filter: TimeFilter, now: int, examTime: string -> int): (r: seq<Exam>)
    ensures filter == Upcoming ==> forall e :: e in r <==> e in exams && now < examTime(e.date)
    ensures filter == Past ==> forall e :: e in r <==> e in exams && examTime(e.date) < now
    ensures filter == AllExams ==> r == exams
  {
    var keep := (e: Exam) => Passes(filter, now, examTime(e.date));
    if filter == AllExams then
      assert forall i :: 0 <= i < |exams| ==> Passes(filter, now, examTime(exams[i].date));
      FilterAll(exams, keep);
      Filter(exams, keep)
    else Filter(exams, keep)
  }

  /** An exam dated exactly now is neither upcoming nor past, so the two lists
      together never hold more than all exams. */
  lemma NowIsNeither(exams: seq<Exam>, now: int, examTime: string -> int)
    ensures forall e :: e in exams && examTime(e.date) == now ==>
              e !in FilteredExams(exams, Upcoming, now, examTime) && e !in FilteredExams(exams, Past, now, examTime)
    ensures |FilteredExams(exams, Upcoming, now, examTime)| + |FilteredExams(exams, Past, now, examTime)| <= |exams|
  {
    var up := (e: Exam) => Passes(Upcoming, now, examTime(e.date));
    var notUp := (e: Exam) => !Passes(Upcoming, now, examTime(e.date));
    var past := (e: Exam) => Passes(Past, now, examTime(e.date));
    FilterPartition(exams, up, notUp);
    assert forall e: Exam :: Passes(Past, now, examTime(e.date)) ==> !Passes(Upcoming, now, examTime(e.date));
    FilterSubset(exams, past, notUp);
  }

  /** `sortedExams`: the filtered list ordered by date, earliest first. */
  function SortedExams(exams: seq<Exam>, filter: TimeFilter, now: int, examTime: string -> int): (r: seq<Exam>)
    ensures multiset(r) == multiset(FilteredExams(exams, filter, now, examTime))
    ensures forall i, j :: 0 <= i < j < |r| ==> examTime(r[i].date) <= examTime(r[j].date)
  {
    var sorted := SortByKey(FilteredExams(exams, filter, now, examTime), (e: Exam) => examTime(e.date));
    assert SortedBy(sorted, (e: Exam) => examTime(e.date));
    sorted
  }

  class ExamsView {
    const store: Store
    var showForm: bool
    var editing: Option<Exam>
    var filter: TimeFilter

    /** The page's first render: form closed, nothing edited, upcoming exams shown. */
    constructor(s: Store)
      ensures store == s && !showForm && editing.None? && filter == Upcoming
    {
      store := s;
      showForm, editing, filter := false, None, Upcoming;
    }

    /** The list shown at time `now`. */
    function Shown(now: int, examTime: string -> int): seq<Exam>
      reads this, store
    {
      SortedExams(store.exams, filter, now, examTime)
    }

    /** `handleAddExam()`. */
    method HandleAdd()
      modifies this`editing, this`showForm
      ensures editing.None? && showForm
    {
      editing, showForm := None, true;
    }

    /** `handleEditExam(exam)`. */
    method HandleEdit(e: Exam)
      modifies this`editing, this`showForm
      ensures editing == Some(e) && showForm
    {
      editing, showForm := Some(e), true;
    }

    /** `handleSubmit(exam)`: update while editing, add otherwise, then close the form. */
    method HandleSubmit(e: Exam)
      modifies store`exams, this`showForm
      ensures editing.Some? ==> store.exams == ReplaceKey(old(store.exams), ExamId, e.id, e)
      ensures editing.None? ==> store.exams == old(store.exams) + [e]
      ensures !showForm
    {
      if editing.Some? {
        store.UpdateExam(e);
      } else {
        store.AddExam(e);
      }
      showForm := false;
    }

    /** The filter select's `onChange`. */
    method SetFilter(f: TimeFilter)
      modifies this`filter
      ensures filter == f
    {
      filter := f;
    }
  }
}
