/**
 * The assignments page: the status filter, the list sorted by due date, and
 * the handlers that open the form and pass its result to the store.
 */
module AssignmentsPage {
  import opened Wrappers
  import opened Seqs
  import opened Types
  import opened AppStore

  /** The filter select: `'all' | 'pending' | 'completed'`. */
  datatype StatusFilter = All | Pending | Completed

  /** The filter callback. */
  predicate Passes(filter: StatusFilter, a: Assignment) {
    match filter
    case Pending => !a.completed
    case Completed => a.completed
    case All => true
  }

  /** `filteredAssignments`. */
  function FilteredAssignments(assignments: seq<Assignment>, filter: StatusFilter): (r: seq<Assignment>)
    ensures filter == Pending ==> forall a :: a in r <==> a in assignments && !a.completed
    ensures filter == Completed ==> forall a :: a in r <==> a in assignments && a.completed
    ensures filter == All ==> r == assignments
  {
    var keep := (a: Assignment) => Passes(filter, a);
    if filter == All then
      FilterAll(assignments, keep);
      Filter(assignments, keep)
    else Filter(assignments, keep)
  }

  /** Every assignment is either pending or completed, never both. */
  lemma PendingAndCompletedSplit(assignments: seq<Assignment>)
    ensures |FilteredAssignments(assignments, Pending)| + |FilteredAssignments(assignments, Completed)| == |assignments|
  {
    FilterPartition(assignments, (a: Assignment) => Passes(Pending, a), (a: Assignment) => Passes(Completed, a));
  }

  /** `sortedAssignments`: the filtered list ordered by due time, earliest
      first; `dueTime` stands for `new Date(a.dueDate).getTime()`. */
  function SortedAssignments(assignments: seq<Assignment>, filter: StatusFilter, dueTime: string -> int): (r: seq<Assignment>)
    ensures multiset(r) == multiset(FilteredAssignments(assignments, filter))
    ensures forall i, j :: 0 <= i < j < |r| ==> dueTime(r[i].dueDate) <= dueTime(r[j].dueDate)
  {
    var sorted := SortByKey(FilteredAssignments(assignments, filter), (a: Assignment) => dueTime(a.dueDate));
    assert SortedBy(sorted, (a: Assignment) => dueTime(a.dueDate));
    sorted
  }

  /** `handleToggleComplete`'s record: the same assignment with `completed` negated. */
  function ToggledAssignment(a: Assignment): (r: Assignment)
    ensures r.completed == !a.completed
    ensures r.(completed := a.completed) == a
  {
    a.(completed := !a.completed)
  }

  class AssignmentsView {
    const store: Store
    var showForm: bool
    var editing: Option<Assignment>
    var filter: StatusFilter

    /** The page's first render: form closed, nothing edited, every assignment shown. */
    constructor(s: Store)
      ensures store == s && !showForm && editing.None? && filter == All
    {
      store := s;
      showForm, editing, filter := false, None, All;
    }

    /** The list shown. */
    function Shown(dueTime: string -> int): seq<Assignment>
      reads this, store
    {
      SortedAssignments(store.assignments, filter, dueTime)
    }

    /** `handleAddAssignment()`. */
    method HandleAdd()
      modifies this`editing, this`showForm
      ensures editing.None? && showForm
    {
      editing, showForm := None, true;
    }

    /** `handleEditAssignment(assignment)`. */
    method HandleEdit(a: Assignment)
      modifies this`editing, this`showForm
      ensures editing == Some(a) && showForm
    {
      editing, showForm := Some(a), true;
    }

    /** `handleToggleComplete(assignment)`: the store replaces the assignment with its toggled copy. */
    method HandleToggleComplete(a: Assignment)
      modifies store`assignments
      ensures store.assignments == ReplaceKey(old(store.assignments), AssignmentId, a.id, ToggledAssignment(a))
    {
      store.UpdateAssignment(ToggledAssignment(a));
    }

    /** `handleSubmit(assignment)`: update while editing, add otherwise, then close the form. */
    method HandleSubmit(a: Assignment)
      modifies store`assignments, this`showForm
      ensures editing.Some? ==> store.assignments == ReplaceKey(old(store.assignments), AssignmentId, a.id, a)
      ensures editing.None? ==> store.assignments == old(store.assignments) + [a]
      ensures !showForm
    {
      if editing.Some? {
        store.UpdateAssignment(a);
      } else {
        store.AddAssignment(a);
      }
      showForm := false;
    }

    /** The filter select's `onChange`. */
    method SetFilter(f: StatusFilter)
      modifies this`filter
      ensures filter == f
    {
      filter := f;
    }
  }
}
