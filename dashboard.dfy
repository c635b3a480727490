/**
 * The dashboard's figures: the pending and upcoming counts, today's study
 * time, and the three soonest pending assignments and upcoming exams with
 * their course names and colours.
 */
module Dashboard {
  import opened Wrappers
  import opened Seqs
  import opened Types
  import opened Lookup
  import opened AssignmentsPage
  import opened ExamsPage

  /** `pendingAssignments`: the number of assignments not completed. */
  function PendingAssignments(assignments: seq<Assignment>): (n: nat)
    ensures n == |Filter(assignments, (a: Assignment) => !a.completed)|
    ensures n + |FilteredAssignments(assignments, Completed)| == |assignments|
  {
    PendingAndCompletedSplit(assignments);
    FilterPartition(assignments, (a: Assignment) => AssignmentsPage.Passes(Completed, a), (a: Assignment) => !a.completed);
    |FilteredAssignments(assignments, Pending)|
  }

  /** `upcomingExams` at time `now`: the number of exams dated strictly after it. */
  function UpcomingExams(exams: seq<Exam>, now: int, examTime: string -> int): (n: nat)
    ensures n + |Filter(exams, (e: Exam) => examTime(e.date) <= now)| == |exams|
    ensures n + |FilteredExams(exams, Past, now, examTime)| <= |exams|
  {
    NowIsNeither(exams, now, examTime);
    assert forall e: Exam :: (examTime(e.date) <= now) == !ExamsPage.Passes(Upcoming, now, examTime(e.date));
    FilterPartition(exams, (e: Exam) => ExamsPage.Passes(Upcoming, now, examTime(e.date)), (e: Exam) => examTime(e.date) <= now);
    |FilteredExams(exams, Upcoming, now, examTime)|
  }

  /** `studyBlocks.find(block => block.date === today)`: the first block dated today. */
  function TodayBlock(blocks: seq<StudyBlock>, today: string): (r: Option<StudyBlock>)
    ensures r.None? <==> forall i :: 0 <= i < |blocks| ==> blocks[i].date != today
    ensures r.Some? ==> exists k :: 0 <= k < |blocks| && blocks[k] == r.value && r.value.date == today
                                    && forall i :: 0 <= i < k ==> blocks[i].date != today
  {
    FindFirst(blocks, (b: StudyBlock) => b.date == today)
  }

  /** The milliseconds from a session's start to its end; `toTime` stands for `new Date(t).getTime()`. */
  function SessionMillis(s: StudySession, toTime: string -> int): int {
    toTime(s.endTime) - toTime(s.startTime)
  }

  /** `todayHours` before the division by 3 600 000: the summed lengths of the
      sessions of the first block dated today, 0 when no block is. */
  function TodayMillis(blocks: seq<StudyBlock>, today: string, toTime: string -> int): (ms: int)
    ensures TodayBlock(blocks, today).None? ==> ms == 0
    ensures TodayBlock(blocks, today).Some? && TodayBlock(blocks, today).value.sessions == [] ==> ms == 0
    ensures TodayBlock(blocks, today).Some? ==>
              ms == Sum(TodayBlock(blocks, today).value.sessions, (s: StudySession) => toTime(s.endTime))
                    - Sum(TodayBlock(blocks, today).value.sessions, (s: StudySession) => toTime(s.startTime))
  {
    match TodayBlock(blocks, today)
    case None => 0
    case Some(b) =>
      SumDifference(b.sessions, (s: StudySession) => toTime(s.endTime), (s: StudySession) => toTime(s.startTime),
                    (s: StudySession) => SessionMillis(s, toTime));
      Sum(b.sessions, (s: StudySession) => SessionMillis(s, toTime))
  }

  /** `todayHours` as an exact rational: the milliseconds divided by 1000 * 60 * 60. */
  function TodayHours(blocks: seq<StudyBlock>, today: string, toTime: string -> int): (hours: real)
    ensures hours * 3600000.0 == TodayMillis(blocks, today, toTime) as real
    ensures TodayBlock(blocks, today).None? ==> hours == 0.0
  {
    TodayMillis(blocks, today, toTime) as real / (1000 * 60 * 60) as real
  }

  /** When none of today's sessions ends before it starts, the total is not negative. */
  lemma TodayMillisNonNegative(blocks: seq<StudyBlock>, today: string, toTime: string -> int)
    requires forall b, s :: b in blocks && b.date == today && s in b.sessions ==> toTime(s.startTime) <= toTime(s.endTime)
    ensures TodayMillis(blocks, today, toTime) >= 0
  {
    if TodayBlock(blocks, today).Some? {
      var b := TodayBlock(blocks, today).value;
      SumNonNegative(b.sessions, (s: StudySession) => SessionMillis(s, toTime));
    }
  }

  /** `s.slice(0, 3)`. */
  function FirstThree<T>(s: seq<T>): (r: seq<T>)
    ensures |r| == if |s| < 3 then |s| else 3
    ensures r == s[..|r|]
  {
    if |s| <= 3 then s else s[..3]
  }

  /** In a list sorted by `key`, an element past the first `n` has no key below one of the first `n`. */
  lemma OmittedNotEarlier<T>(sorted: seq<T>, n: nat, key: T -> int, x: T, y: T)
    requires n <= |sorted|
    requires forall i, j :: 0 <= i < j < |sorted| ==> key(sorted[i]) <= key(sorted[j])
    requires x in sorted && x !in sorted[..n] && y in sorted[..n]
    ensures key(y) <= key(x)
  {
    var k :| 0 <= k < |sorted| && sorted[k] == x;
    var j :| 0 <= j < n && sorted[..n][j] == y;
    assert k >= n by { assert x !in sorted[..n]; }
  }

  /** The three pending assignments due soonest: the pending list sorted by due date and cut to three. */
  function SoonestPending(assignments: seq<Assignment>, dueTime: string -> int): (top: seq<Assignment>)
    ensures |top| == if |FilteredAssignments(assignments, Pending)| < 3 then |FilteredAssignments(assignments, Pending)| else 3
    ensures forall a :: a in top ==> a in assignments && !a.completed
    ensures multiset(top) <= multiset(FilteredAssignments(assignments, Pending))
    ensures forall i, j :: 0 <= i < j < |top| ==> dueTime(top[i].dueDate) <= dueTime(top[j].dueDate)
    ensures forall a, b :: a in assignments && !a.completed && a !in top && b in top ==> dueTime(b.dueDate) <= dueTime(a.dueDate)
  {
    SoonestPendingMembers(assignments, dueTime);
    SoonestPendingEarliest(assignments, dueTime);
    FirstThree(SortedAssignments(assignments, Pending, dueTime))
  }

  /** The cut pending list is as long as it can be and holds pending assignments only. */
  lemma SoonestPendingMembers(assignments: seq<Assignment>, dueTime: string -> int)
    ensures var pool := FilteredAssignments(assignments, Pending);
            var top := FirstThree(SortedAssignments(assignments, Pending, dueTime));
            && |top| == (if |pool| < 3 then |pool| else 3)
            && (forall a :: a in top ==> a in assignments && !a.completed)
            && multiset(top) <= multiset(pool)
  {
    var pool := FilteredAssignments(assignments, Pending);
    var sorted := SortedAssignments(assignments, Pending, dueTime);
    assert |sorted| == |pool| by { assert |multiset(sorted)| == |multiset(pool)|; }
    forall a | a in FirstThree(sorted) ensures a in assignments && !a.completed {
      assert a in multiset(sorted);
    }
    var top := FirstThree(sorted);
    assert sorted == top + sorted[|top|..];
  }

  /** No pending assignment left out of the cut is due before one kept in it. */
  lemma SoonestPendingEarliest(assignments: seq<Assignment>, dueTime: string -> int)
    ensures var top := FirstThree(SortedAssignments(assignments, Pending, dueTime));
            forall a, b :: a in assignments && !a.completed && a !in top && b in top ==> dueTime(b.dueDate) <= dueTime(a.dueDate)
  {
    var pool := FilteredAssignments(assignments, Pending);
    var sorted := SortedAssignments(assignments, Pending, dueTime);
    var top := FirstThree(sorted);
    forall a, b | a in assignments && !a.completed && a !in top && b in top
      ensures dueTime(b.dueDate) <= dueTime(a.dueDate)
    {
      assert a in multiset(pool);
      OmittedNotEarlier(sorted, |top|, (x: Assignment) => dueTime(x.dueDate), a, b);
    }
  }

  /** The three exams dated soonest after `now`: the upcoming list sorted by date and cut to three. */
  function SoonestExams(exams: seq<Exam>, now: int, examTime: string -> int): (top: seq<Exam>)
    ensures |top| == if |FilteredExams(exams, Upcoming, now, examTime)| < 3 then |FilteredExams(exams, Upcoming, now, examTime)| else 3
    ensures forall e :: e in top ==> e in exams && now < examTime(e.date)
    ensures multiset(top) <= multiset(FilteredExams(exams, Upcoming, now, examTime))
    ensures forall i, j :: 0 <= i < j < |top| ==> examTime(top[i].date) <= examTime(top[j].date)
    ensures forall e, f :: e in exams && now < examTime(e.date) && e !in top && f in top ==> examTime(f.date) <= examTime(e.date)
  {
    SoonestExamsMembers(exams, now, examTime);
    SoonestExamsEarliest(exams, now, examTime);
    FirstThree(SortedExams(exams, Upcoming, now, examTime))
  }

  /** The cut upcoming list is as long as it can be and holds upcoming exams only. */
  lemma SoonestExamsMembers(exams: seq<Exam>, now: int, examTime: string -> int)
    ensures var pool := FilteredExams(exams, Upcoming, now, examTime);
            var top := FirstThree(SortedExams(exams, Upcoming, now, examTime));
            && |top| == (if |pool| < 3 then |pool| else 3)
            && (forall e :: e in top ==> e in exams && now < examTime(e.date))
            && multiset(top) <= multiset(pool)
  {
    var pool := FilteredExams(exams, Upcoming, now, examTime);
    var sorted := SortedExams(exams, Upcoming, now, examTime);
    assert |sorted| == |pool| by { assert |multiset(sorted)| == |multiset(pool)|; }
    forall e | e in FirstThree(sorted) ensures e in exams && now < examTime(e.date) {
      assert e in multiset(sorted);
    }
    var top := FirstThree(sorted);
    assert sorted == top + sorted[|top|..];
  }

  /** No upcoming exam left out of the cut is dated before one kept in it. */
  lemma SoonestExamsEarliest(exams: seq<Exam>, now: int, examTime: string -> int)
    ensures var top := FirstThree(SortedExams(exams, Upcoming, now, examTime));
            forall e, f :: e in exams && now < examTime(e.date) && e !in top && f in top ==> examTime(f.date) <= examTime(e.date)
  {
    var pool := FilteredExams(exams, Upcoming, now, examTime);
    var sorted := SortedExams(exams, Upcoming, now, examTime);
    var top := FirstThree(sorted);
    forall e, f | e in exams && now < examTime(e.date) && e !in top && f in top
      ensures examTime(f.date) <= examTime(e.date)
    {
      assert e in multiset(pool);
      OmittedNotEarlier(sorted, |top|, (x: Exam) => examTime(x.date), e, f);
    }
  }

  /** The record an upcoming item becomes. */
  datatype ItemKind = AssignmentItem | ExamItem
  datatype UpcomingItem = UpcomingItem(
    id: string, title: string, date: string, courseId: string, courseName: string, courseColor: string, kind: ItemKind)

  /** `upcomingAssignments`: the soonest pending assignments, in order, each
      with its course's name and colour or their fallbacks. */
  function UpcomingAssignments(assignments: seq<Assignment>, courses: seq<Course>, dueTime: string -> int): (r: seq<UpcomingItem>)
    ensures |r| == |SoonestPending(assignments, dueTime)|
    ensures forall i :: 0 <= i < |r| ==>
              var a := SoonestPending(assignments, dueTime)[i];
              && r[i].id == a.id && r[i].title == a.title && r[i].date == a.dueDate && r[i].courseId == a.courseId
              && r[i].courseName == CourseField(courses, a.courseId, CourseNameOf, "Unknown Course")
              && r[i].courseColor == CourseField(courses, a.courseId, CourseColorOf, "#6366f1")
              && r[i].kind == AssignmentItem
  {
    var top := SoonestPending(assignments, dueTime);
    seq(|top|, i requires 0 <= i < |top| =>
      UpcomingItem(top[i].id, top[i].title, top[i].dueDate, top[i].courseId,
                   CourseField(courses, top[i].courseId, CourseNameOf, "Unknown Course"),
                   CourseField(courses, top[i].courseId, CourseColorOf, "#6366f1"), AssignmentItem))
  }

  /** `upcomingExamsList` at time `now`: the soonest upcoming exams, in order, with their courses' names and colours. */
  function UpcomingExamsList(exams: seq<Exam>, courses: seq<Course>, now: int, examTime: string -> int): (r: seq<UpcomingItem>)
    ensures |r| == |SoonestExams(exams, now, examTime)|
    ensures forall i :: 0 <= i < |r| ==>
              var e := SoonestExams(exams, now, examTime)[i];
              && r[i].id == e.id && r[i].title == e.title && r[i].date == e.date && r[i].courseId == e.courseId
              && r[i].courseName == CourseField(courses, e.courseId, CourseNameOf, "Unknown Course")
              && r[i].courseColor == CourseField(courses, e.courseId, CourseColorOf, "#6366f1")
              && r[i].kind == ExamItem
  {
    var top := SoonestExams(exams, now, examTime);
    seq(|top|, i requires 0 <= i < |top| =>
      UpcomingItem(top[i].id, top[i].title, top[i].date, top[i].courseId,
                   CourseField(courses, top[i].courseId, CourseNameOf, "Unknown Course"),
                   CourseField(courses, top[i].courseId, CourseColorOf, "#6366f1"), ExamItem))
  }
}
