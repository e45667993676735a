/**
 * frontend/src/components/admin/TeacherManager.tsx: the administrator's
 * teacher table, searched over name, username and the email when present.
 * The table and the detail view label a teacher who is not active
 * differently.
 */
module AdminTeacherManager {
  import opened Wrappers
  import opened Scripts

  datatype AdminTeacher = AdminTeacher(id: nat, name: string, username: string, email: Option<string>,
                                       managedClassCount: nat, status: string)

  predicate TeacherMatches(lower: string -> string, t: AdminTeacher, search: string) {
    IncludesIgnoringCase(lower, t.name, search)
    || IncludesIgnoringCase(lower, t.username, search)
    || OptionalIncludes(lower, t.email, search)
  }

  /** `filteredTeachers` */
  function FilteredTeachers(lower: string -> string, teachers: seq<AdminTeacher>, search: string)
    : (r: seq<AdminTeacher>)
    ensures forall i :: 0 <= i < |r| ==> r[i] in teachers && TeacherMatches(lower, r[i], search)
    ensures forall i :: 0 <= i < |teachers| && TeacherMatches(lower, teachers[i], search) ==> teachers[i] in r
  {
    Filter(teachers, (t: AdminTeacher) => TeacherMatches(lower, t, search))
  }

  /** An empty search keeps all teachers, in order. */
  lemma EmptySearchKeepsTeachers(lower: string -> string, teachers: seq<AdminTeacher>)
    requires lower("") == ""
    ensures FilteredTeachers(lower, teachers, "") == teachers
  {
    forall i | 0 <= i < |teachers| ensures TeacherMatches(lower, teachers[i], "") {
      EmptySearchMatches(lower, teachers[i].name);
    }
    FilterKeepsAll(teachers, (t: AdminTeacher) => TeacherMatches(lower, t, ""));
  }

  /** The table's status tag: ACTIVE is in post; every other status reads as having left the school. */
  function TableStatus(status: string): (t: Label)
    ensures status == "ACTIVE" ==> t == Label("green", "在职")
    ensures status != "ACTIVE" ==> t == Label("red", "离校")
  {
    if status == "ACTIVE" then Label("green", "在职") else Label("red", "离校")
  }

  /** The detail view's status tag: the same colours, but a teacher not active has resigned. */
  function DetailStatus(status: string): (t: Label)
    ensures status == "ACTIVE" ==> t == Label("green", "在职")
    ensures status != "ACTIVE" ==> t == Label("red", "离职")
  {
    if status == "ACTIVE" then Label("green", "在职") else Label("red", "离职")
  }

  /** The two views agree on an active teacher and on the colour, and disagree on the text otherwise. */
  lemma ViewsDisagreeOnInactive(status: string)
    ensures TableStatus(status).color == DetailStatus(status).color
    ensures TableStatus(status) == DetailStatus(status) <==> status == "ACTIVE"
  {
  }
}
