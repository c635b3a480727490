/**
 * The event categories of the weekly grid (`EVENT_CATEGORIES`,
 * `getCategoryColor`) and the mapping from a study session's type to its
 * category.
 */
module Categories {
  import opened Wrappers
  import opened Seqs
  import opened Types

  /** An entry of the category table: the stored value, the label shown (`label`, a
      keyword in Dafny, so `caption` here) and a colour class. */
  datatype Category = Category(value: string, caption: string, color: string)

  /** The colour of a category the table does not list. */
  const FallbackColor: string := "bg-gray-500"

  /** `EVENT_CATEGORIES`, in the order the dialog and the legend list them. */
  const EventCategories: seq<Category> := [
    Category("work", "Initial Learning", "bg-blue-500"),
    Category("personal", "Practice", "bg-green-500"),
    Category("meeting", "Review", "bg-purple-500"),
    Category("appointment", "Exam Prep", "bg-orange-500"),
    Category("other", "Other", "bg-gray-500")
  ]

  /** No two entries of the table share a value. */
  lemma CategoryValuesDistinct()
    ensures forall i, j :: 0 <= i < j < |EventCategories| ==> EventCategories[i].value != EventCategories[j].value
  {
  }

  /** The colour of the first entry of `table` whose value is `category`, or the fallback colour. */
  function ColorIn(table: seq<Category>, category: string): string
    decreases |table|
  {
    if table == [] then FallbackColor
    else if table[0].value == category then table[0].color
    else ColorIn(table[1..], category)
  }

  /** In a table without repeated values the lookup finds the entry with that
      value, and gives the fallback exactly when there is none. */
  lemma {:induction false} ColorInTable(table: seq<Category>, category: string)
    requires forall i, j :: 0 <= i < j < |table| ==> table[i].value != table[j].value
    ensures forall i :: 0 <= i < |table| && table[i].value == category ==> ColorIn(table, category) == table[i].color
    ensures (forall i :: 0 <= i < |table| ==> table[i].value != category) ==> ColorIn(table, category) == FallbackColor
    ensures ColorIn(table, category) == FallbackColor || exists i :: 0 <= i < |table| && table[i].color == ColorIn(table, category)
    decreases |table|
  {
    if table != [] && table[0].value != category {
      ColorInTable(table[1..], category);
      assert forall i :: 1 <= i < |table| ==> table[i] == table[1..][i - 1];
    }
  }

  /** `getCategoryColor(category)`: the colour of the table entry with that
      value, or "bg-gray-500" when there is none. */
  function CategoryColor(category: string): (color: string)
    ensures forall i :: 0 <= i < |EventCategories| && EventCategories[i].value == category ==> color == EventCategories[i].color
    ensures (forall i :: 0 <= i < |EventCategories| ==> EventCategories[i].value != category) ==> color == FallbackColor
    ensures exists c :: c in EventCategories && c.color == color
  {
    CategoryValuesDistinct();
    ColorInTable(EventCategories, category);
    assert EventCategories[4].color == FallbackColor;
    ColorIn(EventCategories, category)
  }

  /** Every string gets one of the five colours of the table. */
  lemma CategoryColorTotal(category: string)
    ensures CategoryColor(category) in ["bg-blue-500", "bg-green-500", "bg-purple-500", "bg-orange-500", "bg-gray-500"]
  {
    var c :| c in EventCategories && c.color == CategoryColor(category);
  }

  /** The `switch (session.type)` of the conversion: each of the four type
      names has its category, and any other string falls to "other". */
  function CategoryOfType(typeName: string): (category: string)
    ensures category in ["work", "meeting", "personal", "appointment", "other"]
    ensures category == "other" <==> typeName !in ["initial-learning", "review", "practice", "exam-prep"]
  {
    match typeName
    case "initial-learning" => "work"
    case "review" => "meeting"
    case "practice" => "personal"
    case "exam-prep" => "appointment"
    case _ => "other"
  }

  /** The label shown for a session type's category names that type. */
  function TypeLabel(kind: SessionType): string {
    match kind
    case InitialLearning => "Initial Learning"
    case Review => "Review"
    case Practice => "Practice"
    case ExamPrep => "Exam Prep"
  }

  /** Every session type lands on its own listed category, never on "other",
      and that category's table label names the type. */
  lemma SessionTypeCategory(kind: SessionType)
    ensures CategoryOfType(kind.Name()) != "other"
    ensures exists i :: 0 <= i < |EventCategories| - 1
              && EventCategories[i].value == CategoryOfType(kind.Name())
              && EventCategories[i].caption == TypeLabel(kind)
  {
    match kind
    case InitialLearning => assert EventCategories[0].value == "work";
    case Review => assert EventCategories[2].value == "meeting";
    case Practice => assert EventCategories[1].value == "personal";
    case ExamPrep => assert EventCategories[3].value == "appointment";
  }

  /** Different session types get different categories. */
  lemma SessionTypeCategoryInjective(a: SessionType, b: SessionType)
    ensures CategoryOfType(a.Name()) == CategoryOfType(b.Name()) <==> a == b
  {
  }
}
