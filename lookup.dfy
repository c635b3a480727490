/**
 * The course lookups of the pages and the dashboard: `courses.find` by id,
 * with the fallbacks each caller puts behind it.
 */
module Lookup {
  import opened Wrappers
  import opened Seqs
  import opened Types

  /** `courses.find(c => c.id === id)`: the first course with that id. */
  function FindCourse(courses: seq<Course>, id: string): (r: Option<Course>)
    ensures r.None? <==> forall i :: 0 <= i < |courses| ==> courses[i].id != id
    ensures r.Some? ==> exists k :: 0 <= k < |courses| && courses[k] == r.value && r.value.id == id
                                    && forall i :: 0 <= i < k ==> courses[i].id != id
  {
    FindFirst(courses, (c: Course) => c.id == id)
  }

  /** `courses.find(c => c.id === id) || courses[0]`: the first course with that id,
      else the first course, else nothing (`undefined`) when there are no courses. */
  function CourseOrFirst(courses: seq<Course>, id: string): (r: Option<Course>)
    ensures r.None? <==> courses == []
    ensures r.Some? ==> r.value in courses
    ensures (exists i :: 0 <= i < |courses| && courses[i].id == id) ==>
              exists k :: 0 <= k < |courses| && courses[k] == r.value && r.value.id == id
                          && forall i :: 0 <= i < k ==> courses[i].id != id
    ensures (forall i :: 0 <= i < |courses| ==> courses[i].id != id) && courses != [] ==> r == Some(courses[0])
  {
    match FindCourse(courses, id)
    case Some(c) => Some(c)
    case None => if |courses| > 0 then Some(courses[0]) else None
  }

  /** `courses.find(...)?.name || 'Unknown Course'` and `courses.find(...)?.color || '#6366f1'`:
      the field of the first course with that id, or `fallback` when there is no
      such course or its field is empty. */
  function CourseField(courses: seq<Course>, id: string, field: Course -> string, fallback: string): (v: string)
    ensures fallback != "" ==> v != ""
    ensures FindCourse(courses, id).Some? && field(FindCourse(courses, id).value) != "" ==> v == field(FindCourse(courses, id).value)
    ensures FindCourse(courses, id).Some? && field(FindCourse(courses, id).value) == "" ==> v == fallback
    ensures (forall i :: 0 <= i < |courses| ==> courses[i].id != id) ==> v == fallback
  {
    var found := FindCourse(courses, id);
    if found.Some? && field(found.value) != "" then field(found.value) else fallback
  }

  // The two fields the dashboard reads off a course.
  function CourseNameOf(c: Course): string { c.name }
  function CourseColorOf(c: Course): string { c.color }
}
