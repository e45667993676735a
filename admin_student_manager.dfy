/**
 * frontend/src/components/admin/StudentManager.tsx: the administrator's
 * student table, searched over name, username, and the email and major
 * when present, with a tag for each status.
 */
module AdminStudentManager {
  import opened Wrappers
  import opened Scripts

  datatype AdminStudent = AdminStudent(id: nat, name: string, username: string, email: Option<string>,
                                       majorName: Option<string>, classCount: nat, status: string)

  /** The search of `filteredStudents`; a falsy email or major never matches. */
  predicate StudentMatches(lower: string -> string, s: AdminStudent, search: string) {
    IncludesIgnoringCase(lower, s.name, search)
    || IncludesIgnoringCase(lower, s.username, search)
    || OptionalIncludes(lower, s.email, search)
    || OptionalIncludes(lower, s.majorName, search)
  }

  /** `filteredStudents`: the students matching the search, in the table's order. */
  function FilteredStudents(lower: string -> string, students: seq<AdminStudent>, search: string)
    : (r: seq<AdminStudent>)
    ensures forall i :: 0 <= i < |r| ==> r[i] in students && StudentMatches(lower, r[i], search)
    ensures forall i :: 0 <= i < |students| && StudentMatches(lower, students[i], search) ==> students[i] in r
  {
    Filter(students, (s: AdminStudent) => StudentMatches(lower, s, search))
  }

  /** An empty search keeps every student, in order. */
  lemma EmptySearchKeepsStudents(lower: string -> string, students: seq<AdminStudent>)
    requires lower("") == ""
    ensures FilteredStudents(lower, students, "") == students
  {
    forall i | 0 <= i < |students| ensures StudentMatches(lower, students[i], "") {
      EmptySearchMatches(lower, students[i].name);
    }
    FilterKeepsAll(students, (s: AdminStudent) => StudentMatches(lower, s, ""));
  }

  /** The search keeps the table's order: filtering the two halves of a table and joining them is filtering it. */
  lemma FilteringKeepsOrder(lower: string -> string, a: seq<AdminStudent>, b: seq<AdminStudent>, search: string)
    ensures FilteredStudents(lower, a + b, search) == FilteredStudents(lower, a, search) + FilteredStudents(lower, b, search)
  {
    FilterAppend(a, b, (s: AdminStudent) => StudentMatches(lower, s, search));
  }

  /** `getStatusTag` */
  function StatusTag(status: string): (t: Label)
    ensures status == "ACTIVE" ==> t == Label("green", "在读")
    ensures status == "GRADUATED" ==> t == Label("blue", "已毕业")
    ensures status == "SUSPENDED" ==> t == Label("red", "休学")
    ensures status !in {"ACTIVE", "GRADUATED", "SUSPENDED"} ==> t == Label("default", "未知")
  {
    if status == "ACTIVE" then Label("green", "在读")
    else if status == "GRADUATED" then Label("blue", "已毕业")
    else if status == "SUSPENDED" then Label("red", "休学")
    else Label("default", "未知")
  }

  /** The three statuses have three different tags, and none of them is the unknown one. */
  lemma StatusTagsDiffer(s: string, t: string)
    requires s in {"ACTIVE", "GRADUATED", "SUSPENDED"} && t in {"ACTIVE", "GRADUATED", "SUSPENDED"}
    ensures StatusTag(s).text != "未知"
    ensures s != t ==> StatusTag(s) != StatusTag(t)
  {
  }

  /** The create form's status: ACTIVE unless the administrator picks another. */
  function CreateStatus(picked: Option<string>): (status: string)
    ensures picked.None? ==> status == "ACTIVE"
    ensures picked.Some? ==> status == picked.value
  {
    if picked.Some? then picked.value else "ACTIVE"
  }

  /** A student created without picking a status is shown as studying. */
  lemma DefaultStatusIsStudying()
    ensures StatusTag(CreateStatus(None)) == Label("green", "在读")
  {
  }
}
