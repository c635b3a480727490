/** The records and enumerations of the application's data model. */
module Types {

  /** `1 | 2 | 3 | 4 | 5`. */
  type Difficulty = d: int | 1 <= d <= 5 witness 1
  /** `1 | 2 | 3`, 1 being the highest priority. */
  type Priority = p: int | 1 <= p <= 3 witness 1
  /** `1 | 2 | 3`, 3 being the most important. */
  type Importance = i: int | 1 <= i <= 3 witness 1

  datatype Theme = Light | Dark
  datatype StudyTime = Morning | Afternoon | Evening | Night
  datatype LearningStyle = Visual | Auditory | Reading | Kinesthetic
  datatype LearningPace = Slow | Moderate | Fast

  datatype UserPreferences = UserPreferences(
    preferredStudyTime: StudyTime,
    preferredSessionLength: int,  // minutes
    learningStyle: LearningStyle,
    learningPace: LearningPace,
    breakFrequency: int,          // minutes
    breakDuration: int,           // minutes
    theme: Theme)

  datatype User = User(id: string, name: string, email: string, preferences: UserPreferences)

  datatype Course = Course(id: string, name: string, color: string, difficulty: Difficulty, priority: Priority)

  datatype Assignment = Assignment(
    id: string,
    courseId: string,
    title: string,
    description: string,
    dueDate: string,
    estimatedHours: real,
    completed: bool)

  datatype Exam = Exam(id: string, courseId: string, title: string, date: string, importance: Importance, topics: seq<string>)

  /** The four kinds of study session. */
  datatype SessionType = InitialLearning | Review | Practice | ExamPrep {
    /** The string the type is spelled as in the data. */
    function Name(): (s: string)
      ensures s in ["initial-learning", "review", "practice", "exam-prep"]
    {
      match this
      case InitialLearning => "initial-learning"
      case Review => "review"
      case Practice => "practice"
      case ExamPrep => "exam-prep"
    }
  }

  /** A session's `type` field, which Dafny reserves as a keyword, is `kind` here. */
  datatype StudySession = StudySession(
    id: string,
    courseId: string,
    title: string,
    startTime: string,  // ISO timestamp
    endTime: string,    // ISO timestamp
    completed: bool,
    kind: SessionType)

  /** A day of study: an id, a date string and its sessions in order. */
  datatype StudyBlock = StudyBlock(id: string, date: string, sessions: seq<StudySession>)

  datatype ProgressData = ProgressData(planned: int, completed: int, date: string)

  datatype PerformanceMetric = PerformanceMetric(courseId: string, score: real, date: string)

  // The id of each kind of record, as a function value for the store's by-id operations.
  function CourseId(c: Course): string { c.id }
  function AssignmentId(a: Assignment): string { a.id }
  function ExamId(e: Exam): string { e.id }
  function BlockId(b: StudyBlock): string { b.id }
  function SessionId(s: StudySession): string { s.id }

  /** `studyBlocks.flatMap(block => block.sessions)`: every session of every block, in order. */
  function AllSessions(blocks: seq<StudyBlock>): (r: seq<StudySession>)
    ensures forall s :: s in r <==> exists b :: b in blocks && s in b.sessions
    decreases |blocks|
  {
    if blocks == [] then []
    else
      assert forall b :: b in blocks <==> b == blocks[0] || b in blocks[1..];
      blocks[0].sessions + AllSessions(blocks[1..])
  }

  /** Each session type has its own name, so the spelling determines the type. */
  lemma SessionTypeNamesDistinct(a: SessionType, b: SessionType)
    ensures a.Name() == b.Name() <==> a == b
  {
  }
}
