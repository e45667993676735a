/**
 * frontend/src/components/teacher/ClassManager.tsx: the teacher's classes
 * and students. The student table is filtered by name or username, its row
 * selection is cleared on every tab change, a batch action needs a
 * selection, and the class dialog updates the class being edited or
 * creates a new one.
 */
module TeacherClassManager {
  import opened Wrappers
  import opened JavaStrings
  import opened Scripts

  datatype Student = Student(id: nat, name: string, username: string, email: string, status: string)

  /** The search of the student tab: name or username, ignoring case. */
  predicate StudentMatches(lower: string -> string, s: Student, search: string) {
    IncludesIgnoringCase(lower, s.name, search) || IncludesIgnoringCase(lower, s.username, search)
  }

  /** `filteredStudents` */
  function FilteredStudents(lower: string -> string, students: seq<Student>, search: string): (r: seq<Student>)
    ensures forall i :: 0 <= i < |r| ==> r[i] in students && StudentMatches(lower, r[i], search)
    ensures forall i :: 0 <= i < |students| && StudentMatches(lower, students[i], search) ==> students[i] in r
  {
    Filter(students, (s: Student) => StudentMatches(lower, s, search))
  }

  /** An empty search keeps the whole table, in order. */
  lemma EmptySearchKeepsStudents(lower: string -> string, students: seq<Student>)
    requires lower("") == ""
    ensures FilteredStudents(lower, students, "") == students
  {
    forall i | 0 <= i < |students| ensures StudentMatches(lower, students[i], "") {
      EmptySearchMatches(lower, students[i].name);
    }
    FilterKeepsAll(students, (s: Student) => StudentMatches(lower, s, ""));
  }

  /** The decimal texts of ids, as `key.toString()` gives them. */
  function IdTexts(ids: seq<nat>): (r: seq<string>)
    ensures |r| == |ids| && forall i :: 0 <= i < |ids| ==> r[i] == NatText(ids[i])
  {
    if |ids| == 0 then [] else [NatText(ids[0])] + IdTexts(ids[1..])
  }

  const AssignPath: string := "/teacher/target/create"

  /** The query of the target form for a selection: `?students=` and the ids joined by ','. */
  function AssignSearch(ids: seq<nat>): string {
    "?students=" + Join(IdTexts(ids), ',')
  }

  /** Where assignTarget navigates: the path of the target form, then the selection's query. */
  function AssignTargetUrl(ids: seq<nat>): (url: string)
    ensures url == AssignPath + AssignSearch(ids) && '?' !in AssignPath
  {
    AssignPath + AssignSearch(ids)
  }

  datatype ClassRow = ClassRow(id: nat, name: string, description: string)

  /** The dialog's fields. */
  datatype ClassForm = ClassForm(name: string, description: string)

  datatype Request = Put(url: string, body: ClassForm) | Post(url: string, body: ClassForm)

  /** The dialog's request: an update of the class being edited, or a creation. */
  function ModalRequest(current: Option<ClassRow>, values: ClassForm): (r: Request)
    ensures current.Some? ==> r == Put("/api/teacher/class/" + NatText(current.value.id), values)
    ensures current.None? ==> r == Post("/api/teacher/class/create", values)
  {
    match current
    case Some(c) => Put("/api/teacher/class/" + NatText(c.id), values)
    case None => Post("/api/teacher/class/create", values)
  }

  /** An edited class is never sent to the creation endpoint, and a new one never updates a class. */
  lemma EditNeverCreates(c: ClassRow, values: ClassForm)
    ensures ModalRequest(Some(c), values).Put? && ModalRequest(None, values).Post?
    ensures StartsWith(ModalRequest(Some(c), values).url, "/api/teacher/class/")
  {
    var u := ModalRequest(Some(c), values).url;
    assert u[..|"/api/teacher/class/"|] == "/api/teacher/class/";
  }

  /** The page's state: the tab, the selected student ids and the class dialog. */
  class ClassManagerPage {
    var activeTab: string
    var selectedRowKeys: seq<nat>
    var modalVisible: bool
    var modalTitle: string
    var currentClass: Option<ClassRow>
    var form: ClassForm

    constructor ()
      ensures activeTab == "1" && selectedRowKeys == [] && !modalVisible && currentClass.None?
    {
      activeTab := "1";
      selectedRowKeys := [];
      modalVisible := false;
      modalTitle := "";
      currentClass := None;
      form := ClassForm("", "");
    }

    /** The table's selection callback. */
    method SelectRows(keys: seq<nat>)
      modifies this
      ensures selectedRowKeys == keys
      ensures activeTab == old(activeTab) && modalVisible == old(modalVisible) && currentClass == old(currentClass)
    {
      selectedRowKeys := keys;
    }

    /** `handleTabChange`: the selection never survives a tab change; tab "2" loads the students. */
    method HandleTabChange(key: string) returns (fetchStudents: bool)
      modifies this
      ensures activeTab == key && selectedRowKeys == []
      ensures fetchStudents <==> key == "2"
      ensures modalVisible == old(modalVisible) && currentClass == old(currentClass) && form == old(form)
    {
      activeTab := key;
      selectedRowKeys := [];
      fetchStudents := key == "2";
    }

    /**
     * `handleBatchAction`: without a selection only a warning; otherwise
     * assignTarget opens the target form for the selection, and
     * removeFromClass asks for confirmation.
     */
    method HandleBatchAction(action: string) returns (warning: Option<string>, navigation: Option<string>, confirm: bool)
      ensures selectedRowKeys == [] ==> warning == Some("请先选择学生") && navigation.None? && !confirm
      ensures selectedRowKeys != [] ==> warning.None?
      ensures selectedRowKeys != [] && action == "assignTarget" ==>
        navigation == Some(AssignTargetUrl(selectedRowKeys)) && !confirm
      ensures selectedRowKeys != [] && action == "removeFromClass" ==> navigation.None? && confirm
      ensures action != "assignTarget" && action != "removeFromClass" ==> navigation.None? && !confirm
    {
      if |selectedRowKeys| == 0 {
        return Some("请先选择学生"), None, false;
      }
      if action == "assignTarget" {
        return None, Some(AssignTargetUrl(selectedRowKeys)), false;
      }
      return None, None, action == "removeFromClass";
    }

    /** The confirmation of removeFromClass: it sends nothing, shows success and clears the selection. */
    method ConfirmRemove() returns (toast: string)
      modifies this
      ensures selectedRowKeys == [] && toast == "已成功移除所选学生"
      ensures activeTab == old(activeTab) && modalVisible == old(modalVisible) && currentClass == old(currentClass)
    {
      selectedRowKeys := [];
      toast := "已成功移除所选学生";
    }

    /** `handleCreateClass`: an empty dialog with no class being edited. */
    method HandleCreateClass()
      modifies this
      ensures currentClass.None? && modalVisible && modalTitle == "创建新班级" && form == ClassForm("", "")
      ensures selectedRowKeys == old(selectedRowKeys) && activeTab == old(activeTab)
    {
      currentClass := None;
      modalTitle := "创建新班级";
      form := ClassForm("", "");
      modalVisible := true;
    }

    /** `handleEditClass`: the dialog holds the record's name and description. */
    method HandleEditClass(record: ClassRow)
      modifies this
      ensures currentClass == Some(record) && modalVisible && modalTitle == "编辑班级"
      ensures form == ClassForm(record.name, record.description)
      ensures selectedRowKeys == old(selectedRowKeys) && activeTab == old(activeTab)
    {
      currentClass := Some(record);
      modalTitle := "编辑班级";
      form := ClassForm(record.name, record.description);
      modalVisible := true;
    }

    /** Typing into the dialog's "name" input: only that form field changes. */
    method EditName(name: string)
      modifies this
      ensures form == old(form).(name := name)
      ensures modalVisible == old(modalVisible) && currentClass == old(currentClass)
      ensures activeTab == old(activeTab) && selectedRowKeys == old(selectedRowKeys)
    {
      form := form.(name := name);
    }

    /** Typing into the dialog's "description" text area: only that form field changes. */
    method EditDescription(description: string)
      modifies this
      ensures form == old(form).(description := description)
      ensures modalVisible == old(modalVisible) && currentClass == old(currentClass)
      ensures activeTab == old(activeTab) && selectedRowKeys == old(selectedRowKeys)
    {
      form := form.(description := description);
    }

    /** `handleModalCancel`: the dialog closes; the form keeps what was typed. */
    method HandleModalCancel()
      modifies this
      ensures !modalVisible
      ensures form == old(form) && currentClass == old(currentClass)
      ensures activeTab == old(activeTab) && selectedRowKeys == old(selectedRowKeys)
    {
      modalVisible := false;
    }

    /**
     * `handleModalOk`: when the fields validate, the dialog's request; on
     * its success the message of that request, a refetch and the dialog
     * closed. A validation or request failure shows '操作失败' and keeps it open.
     */
    method HandleModalOk(valid: bool, succeeded: bool)
      returns (request: Option<Request>, toast: string, refetch: bool)
      modifies this
      ensures valid ==> request == Some(ModalRequest(currentClass, form))
      ensures !valid ==> request.None?
      ensures valid && succeeded ==>
        !modalVisible && refetch && toast == (if currentClass.Some? then "班级已更新" else "班级已创建")
      ensures !(valid && succeeded) ==> modalVisible == old(modalVisible) && !refetch && toast == "操作失败"
      ensures currentClass == old(currentClass) && form == old(form) && selectedRowKeys == old(selectedRowKeys)
    {
      if !valid {
        return None, "操作失败", false;
      }
      request := Some(ModalRequest(currentClass, form));
      if !succeeded {
        return request, "操作失败", false;
      }
      toast := if currentClass.Some? then "班级已更新" else "班级已创建";
      refetch := true;
      modalVisible := false;
    }
  }
}
