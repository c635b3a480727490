/** The labels a course card shows for its difficulty and its priority. */
module CourseCard {

  /** `getDifficultyLabel(difficulty)`. */
  function DifficultyLabel(difficulty: int): (text: string)
    ensures text == "Unknown" <==> !(1 <= difficulty <= 5)
    ensures text in ["Very Easy", "Easy", "Moderate", "Difficult", "Very Difficult", "Unknown"]
  {
    match difficulty
    case 1 => "Very Easy"
    case 2 => "Easy"
    case 3 => "Moderate"
    case 4 => "Difficult"
    case 5 => "Very Difficult"
    case _ => "Unknown"
  }

  /** `getPriorityLabel(priority)`: 1 is the highest priority. */
  function PriorityLabel(priority: int): (text: string)
    ensures text == "Unknown" <==> !(1 <= priority <= 3)
    ensures text in ["High", "Medium", "Low", "Unknown"]
  {
    match priority
    case 1 => "High"
    case 2 => "Medium"
    case 3 => "Low"
    case _ => "Unknown"
  }

  /** No two valid difficulties share a label; 1 is "Very Easy" and 5 "Very Difficult". */
  lemma DifficultyLabelsDistinct(a: int, b: int)
    requires 1 <= a <= 5 && 1 <= b <= 5
    ensures DifficultyLabel(a) == DifficultyLabel(b) <==> a == b
    ensures DifficultyLabel(1) == "Very Easy" && DifficultyLabel(5) == "Very Difficult"
  {
  }

  /** No two valid priorities share a label, and 1 is "High". */
  lemma PriorityLabelsDistinct(a: int, b: int)
    requires 1 <= a <= 3 && 1 <= b <= 3
    ensures PriorityLabel(a) == PriorityLabel(b) <==> a == b
    ensures PriorityLabel(1) == "High" && PriorityLabel(3) == "Low"
  {
  }
}

/** The exam card's importance label and its upcoming marker. */
module ExamCard {

  /** `getImportanceLabel(importance)`: 3 is the most important. */
  function ImportanceLabel(importance: int): (text: string)
    ensures text == "Unknown" <==> !(1 <= importance <= 3)
    ensures text in ["Low", "Medium", "High", "Unknown"]
  {
    match importance
    case 1 => "Low"
    case 2 => "Medium"
    case 3 => "High"
    case _ => "Unknown"
  }

  /** No two valid importances share a label, and 3 is "High". */
  lemma ImportanceLabelsDistinct(a: int, b: int)
    requires 1 <= a <= 3 && 1 <= b <= 3
    ensures ImportanceLabel(a) == ImportanceLabel(b) <==> a == b
    ensures ImportanceLabel(3) == "High" && ImportanceLabel(1) == "Low"
  {
  }

  /** `isUpcoming`: the exam's time (`parseISO(exam.date)`) is strictly after `now`. */
  predicate IsUpcoming(now: int, examTime: int) {
    now < examTime
  }
}
