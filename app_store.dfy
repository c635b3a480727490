/**
 * The application's in-memory store (`AppProvider`): seven state slots and
 * the operations that overwrite them, each new value built from the old one
 * by appending, replacing by id or removing by id.
 */
module AppStore {
  import opened Seqs
  import opened Types

  /** The `sessions.map` of `toggleSessionCompletion`: sessions with the id flip `completed`. */
  function ToggleSessions(sessions: seq<StudySession>, sessionId: string): (r: seq<StudySession>)
    ensures |r| == |sessions|
    ensures forall j :: 0 <= j < |r| ==>
              && r[j].(completed := sessions[j].completed) == sessions[j]
              && r[j].completed == (sessions[j].completed != (sessions[j].id == sessionId))
  {
    seq(|sessions|, j requires 0 <= j < |sessions| =>
      if sessions[j].id == sessionId then sessions[j].(completed := !sessions[j].completed) else sessions[j])
  }

  /** The new `studyBlocks` of `toggleSessionCompletion(blockId, sessionId)`:
      `completed` flips exactly on the sessions with that id inside blocks with
      that id; every other field, session and block stays as it was. */
  function ToggleInBlocks(blocks: seq<StudyBlock>, blockId: string, sessionId: string): (r: seq<StudyBlock>)
    ensures |r| == |blocks|
    ensures forall i :: 0 <= i < |r| ==>
              r[i].id == blocks[i].id && r[i].date == blocks[i].date && |r[i].sessions| == |blocks[i].sessions|
    ensures forall i, j :: 0 <= i < |r| && 0 <= j < |r[i].sessions| ==>
              && r[i].sessions[j].(completed := blocks[i].sessions[j].completed) == blocks[i].sessions[j]
              && r[i].sessions[j].completed
                 == (blocks[i].sessions[j].completed != (blocks[i].id == blockId && blocks[i].sessions[j].id == sessionId))
  {
    seq(|blocks|, i requires 0 <= i < |blocks| =>
      if blocks[i].id == blockId then blocks[i].(sessions := ToggleSessions(blocks[i].sessions, sessionId)) else blocks[i])
  }

  /** Toggling the same session twice restores the blocks. */
  lemma ToggleTwice(blocks: seq<StudyBlock>, blockId: string, sessionId: string)
    ensures ToggleInBlocks(ToggleInBlocks(blocks, blockId, sessionId), blockId, sessionId) == blocks
  {
    var once := ToggleInBlocks(blocks, blockId, sessionId);
    var twice := ToggleInBlocks(once, blockId, sessionId);
    forall i | 0 <= i < |blocks| ensures twice[i] == blocks[i] {
      assert twice[i].sessions == blocks[i].sessions;
    }
  }

  /** A toggle neither adds nor removes sessions. */
  lemma {:induction false} ToggleKeepsSessions(blocks: seq<StudyBlock>, blockId: string, sessionId: string)
    ensures |AllSessions(ToggleInBlocks(blocks, blockId, sessionId))| == |AllSessions(blocks)|
    decreases |blocks|
  {
    if blocks != [] {
      var r := ToggleInBlocks(blocks, blockId, sessionId);
      assert r[1..] == ToggleInBlocks(blocks[1..], blockId, sessionId);
      ToggleKeepsSessions(blocks[1..], blockId, sessionId);
    }
  }

  /** The number of progress entries dated `day`. */
  function CountDated(progress: seq<ProgressData>, day: string): nat
    decreases |progress|
  {
    if progress == [] then 0 else (if progress[0].date == day then 1 else 0) + CountDated(progress[1..], day)
  }

  function CompletedCount(p: ProgressData): int { p.completed }

  /** The new `progressData` of `toggleSessionCompletion`: one more completed
      session on every entry dated today, whichever way the session flipped
      and even when no session matched. */
  function BumpToday(progress: seq<ProgressData>, today: string): (r: seq<ProgressData>)
    ensures |r| == |progress|
    ensures forall i :: 0 <= i < |r| ==>
              && r[i].date == progress[i].date && r[i].planned == progress[i].planned
              && r[i].completed == progress[i].completed + (if progress[i].date == today then 1 else 0)
  {
    seq(|progress|, i requires 0 <= i < |progress| =>
      if progress[i].date == today then progress[i].(completed := progress[i].completed + 1) else progress[i])
  }

  /** The completed total rises by the number of entries dated today. */
  lemma {:induction false} BumpTodayTotal(progress: seq<ProgressData>, today: string)
    ensures Sum(BumpToday(progress, today), CompletedCount) == Sum(progress, CompletedCount) + CountDated(progress, today)
    decreases |progress|
  {
    if progress != [] {
      var r := BumpToday(progress, today);
      assert r[1..] == BumpToday(progress[1..], today);
      BumpTodayTotal(progress[1..], today);
    }
  }

  /** `toggleTheme`'s new user: light becomes dark and dark becomes light; nothing else changes. */
  function ToggledTheme(u: User): (r: User)
    ensures r.preferences.theme != u.preferences.theme
    ensures r.(preferences := u.preferences) == u
    ensures r.preferences.(theme := u.preferences.theme) == u.preferences
  {
    u.(preferences := u.preferences.(theme := if u.preferences.theme == Light then Dark else Light))
  }

  /** Toggling the theme twice restores the user. */
  lemma ToggleThemeTwice(u: User)
    ensures ToggledTheme(ToggledTheme(u)) == u
  {
  }

  class Store {
    var user: User
    var courses: seq<Course>
    var assignments: seq<Assignment>
    var exams: seq<Exam>
    var studyBlocks: seq<StudyBlock>
    var progressData: seq<ProgressData>
    var performanceMetrics: seq<PerformanceMetric>

    /** The provider's first render, from the initial data. */
    constructor(u: User, cs: seq<Course>, tasks: seq<Assignment>, es: seq<Exam>, bs: seq<StudyBlock>,
                ps: seq<ProgressData>, ms: seq<PerformanceMetric>)
      ensures user == u && courses == cs && assignments == tasks && exams == es
      ensures studyBlocks == bs && progressData == ps && performanceMetrics == ms
    {
      user, courses, assignments, exams := u, cs, tasks, es;
      studyBlocks, progressData, performanceMetrics := bs, ps, ms;
    }

    method UpdateUser(u: User)
      modifies this`user
      ensures user == u
    {
      user := u;
    }

    method AddCourse(c: Course)
      modifies this`courses
      ensures courses == old(courses) + [c]
    {
      courses := courses + [c];
    }

    method UpdateCourse(c: Course)
      modifies this`courses
      ensures courses == ReplaceKey(old(courses), CourseId, c.id, c)
    {
      courses := ReplaceKey(courses, CourseId, c.id, c);
    }

    method DeleteCourse(id: string)
      modifies this`courses
      ensures courses == RemoveKey(old(courses), CourseId, id)
    {
      courses := RemoveKey(courses, CourseId, id);
    }

    method AddAssignment(a: Assignment)
      modifies this`assignments
      ensures assignments == old(assignments) + [a]
    {
      assignments := assignments + [a];
    }

    method UpdateAssignment(a: Assignment)
      modifies this`assignments
      ensures assignments == ReplaceKey(old(assignments), AssignmentId, a.id, a)
    {
      assignments := ReplaceKey(assignments, AssignmentId, a.id, a);
    }

    method DeleteAssignment(id: string)
      modifies this`assignments
      ensures assignments == RemoveKey(old(assignments), AssignmentId, id)
    {
      assignments := RemoveKey(assignments, AssignmentId, id);
    }

    method AddExam(e: Exam)
      modifies this`exams
      ensures exams == old(exams) + [e]
    {
      exams := exams + [e];
    }

    method UpdateExam(e: Exam)
      modifies this`exams
      ensures exams == ReplaceKey(old(exams), ExamId, e.id, e)
    {
      exams := ReplaceKey(exams, ExamId, e.id, e);
    }

    method DeleteExam(id: string)
      modifies this`exams
      ensures exams == RemoveKey(old(exams), ExamId, id)
    {
      exams := RemoveKey(exams, ExamId, id);
    }

    method UpdateStudyBlock(b: StudyBlock)
      modifies this`studyBlocks
      ensures studyBlocks == ReplaceKey(old(studyBlocks), BlockId, b.id, b)
    {
      studyBlocks := ReplaceKey(studyBlocks, BlockId, b.id, b);
    }

    /** `toggleSessionCompletion(blockId, sessionId)` on the date string `today`
        (`new Date().toISOString().split('T')[0]`). */
    method ToggleSessionCompletion(blockId: string, sessionId: string, today: string)
      modifies this`studyBlocks, this`progressData
      ensures studyBlocks == ToggleInBlocks(old(studyBlocks), blockId, sessionId)
      ensures progressData == BumpToday(old(progressData), today)
      ensures Sum(progressData, CompletedCount) == Sum(old(progressData), CompletedCount) + CountDated(old(progressData), today)
    {
      studyBlocks := ToggleInBlocks(studyBlocks, blockId, sessionId);
      BumpTodayTotal(progressData, today);
      progressData := BumpToday(progressData, today);
    }

    method ToggleTheme()
      modifies this`user
      ensures user == ToggledTheme(old(user))
    {
      user := ToggledTheme(user);
    }
  }
}
