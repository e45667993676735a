/**
 * frontend/src/components/teacher/StudentEvaluation.tsx: a student's
 * evaluations and activities, or the student list when no student is
 * chosen. Both lists are searched case-insensitively; the evaluation type
 * and the participation status are shown through fixed labels.
 */
module StudentEvaluation {
  import opened Wrappers
  import opened Scripts
  import Participations

  datatype ListedStudent = ListedStudent(id: nat, name: string, studentId: string, className: Option<string>)

  datatype Evaluation = Evaluation(id: nat, studentId: int, title: string, content: string,
                                   createdAt: string, score: int, kind: string, createdBy: string)

  predicate EvaluationMatches(lower: string -> string, e: Evaluation, search: string) {
    IncludesIgnoringCase(lower, e.title, search) || IncludesIgnoringCase(lower, e.content, search)
  }

  /** `filteredEvaluations`: the evaluations whose title or content contains the search. */
  function FilteredEvaluations(lower: string -> string, evaluations: seq<Evaluation>, search: string)
    : (r: seq<Evaluation>)
    ensures forall i :: 0 <= i < |r| ==>
      r[i] in evaluations
      && (IncludesIgnoringCase(lower, r[i].title, search) || IncludesIgnoringCase(lower, r[i].content, search))
    ensures forall i :: 0 <= i < |evaluations| ==>
      (IncludesIgnoringCase(lower, evaluations[i].title, search)
       || IncludesIgnoringCase(lower, evaluations[i].content, search)
       ==> evaluations[i] in r)
  {
    Filter(evaluations, (e: Evaluation) => EvaluationMatches(lower, e, search))
  }

  /** An empty search keeps every evaluation, in order. */
  lemma EmptySearchKeepsEvaluations(lower: string -> string, evaluations: seq<Evaluation>)
    requires lower("") == ""
    ensures FilteredEvaluations(lower, evaluations, "") == evaluations
  {
    forall i | 0 <= i < |evaluations| ensures EvaluationMatches(lower, evaluations[i], "") {
      EmptySearchMatches(lower, evaluations[i].title);
    }
    FilterKeepsAll(evaluations, (e: Evaluation) => EvaluationMatches(lower, e, ""));
  }

  /** The student search: name, student number, or the class name when there is one. */
  predicate StudentMatches(lower: string -> string, s: ListedStudent, search: string) {
    IncludesIgnoringCase(lower, s.name, search)
    || IncludesIgnoringCase(lower, s.studentId, search)
    || OptionalIncludes(lower, s.className, search)
  }

  /** `filteredStudents` */
  function FilteredStudents(lower: string -> string, students: seq<ListedStudent>, search: string)
    : (r: seq<ListedStudent>)
    ensures forall i :: 0 <= i < |r| ==> r[i] in students && StudentMatches(lower, r[i], search)
    ensures forall i :: 0 <= i < |students| && StudentMatches(lower, students[i], search) ==> students[i] in r
  {
    Filter(students, (s: ListedStudent) => StudentMatches(lower, s, search))
  }

  /** A student without a class name is found only through the name or the student number. */
  lemma ClasslessStudentMatch(lower: string -> string, s: ListedStudent, search: string)
    requires !Truthy(s.className)
    ensures StudentMatches(lower, s, search) <==>
      IncludesIgnoringCase(lower, s.name, search) || IncludesIgnoringCase(lower, s.studentId, search)
  {
  }

  /** An empty search keeps every student, in order. */
  lemma EmptySearchKeepsStudents(lower: string -> string, students: seq<ListedStudent>)
    requires lower("") == ""
    ensures FilteredStudents(lower, students, "") == students
  {
    forall i | 0 <= i < |students| ensures StudentMatches(lower, students[i], "") {
      EmptySearchMatches(lower, students[i].name);
    }
    FilterKeepsAll(students, (s: ListedStudent) => StudentMatches(lower, s, ""));
  }

  /** The evaluation type column: three known types; any other is shown as it is, in blue. */
  function TypeLabel(kind: string): (t: Label)
    ensures kind == "SEMESTER" ==> t == Label("green", "学期评估")
    ensures kind == "ACTIVITY" ==> t == Label("blue", "活动评估")
    ensures kind == "SPECIAL" ==> t == Label("purple", "特殊评估")
    ensures kind !in {"SEMESTER", "ACTIVITY", "SPECIAL"} ==> t == Label("blue", kind)
  {
    if kind == "SEMESTER" then Label("green", "学期评估")
    else if kind == "ACTIVITY" then Label("blue", "活动评估")
    else if kind == "SPECIAL" then Label("purple", "特殊评估")
    else Label("blue", kind)
  }

  /** The participation column: three statuses; any other value has the default tag with no text. */
  function ParticipationLabel(status: string): (t: Label)
    ensures t.text != "" <==> status in {"REGISTERED", "COMPLETED", "CANCELLED"}
    ensures status == "REGISTERED" ==> t == Label("blue", "已报名")
    ensures status == "COMPLETED" ==> t == Label("green", "已完成")
    ensures status == "CANCELLED" ==> t == Label("red", "已取消")
    ensures status !in {"REGISTERED", "COMPLETED", "CANCELLED"} ==> t == Label("default", "")
  {
    if status == "REGISTERED" then Label("blue", "已报名")
    else if status == "COMPLETED" then Label("green", "已完成")
    else if status == "CANCELLED" then Label("red", "已取消")
    else Label("default", "")
  }

  /** Every participation status the backend stores has a label, and the three labels differ. */
  lemma BackendParticipationIsLabelled(s: Participations.ParticipationStatus, t: Participations.ParticipationStatus)
    ensures ParticipationLabel(Participations.ParticipationStatusName(s)).text != ""
    ensures s != t ==>
      ParticipationLabel(Participations.ParticipationStatusName(s)).text
      != ParticipationLabel(Participations.ParticipationStatusName(t)).text
  {
  }
}
