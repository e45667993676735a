/**
 * frontend/src/components/teacher/LearningTargetForm.tsx: the form that
 * creates a learning target. Its chosen students come from the
 * `students` query parameter, from a transfer list or from whole classes;
 * recommended activities are toggled in and out; the submit needs at
 * least one student and sends their ids as numbers.
 */
module LearningTargetForm {
  import opened Wrappers
  import opened JavaStrings
  import opened Scripts
  import opened UrlQueries
  import TeacherClassManager

  /** The mount effect's keys: a truthy `students` parameter split on ','; otherwise the keys are kept. */
  function KeysFromQuery(search: string, keys: seq<string>): (r: seq<string>)
    ensures Truthy(QueryParam(search, "students")) ==> r == SplitAll(QueryParam(search, "students").value, ',')
    ensures !Truthy(QueryParam(search, "students")) ==> r == keys
  {
    var ids := QueryParam(search, "students");
    if Truthy(ids) then SplitAll(ids.value, ',') else keys
  }

  /** `targetKeys.map(key => parseInt(key))`; NaN is None. */
  function StudentIds(keys: seq<string>): (r: seq<Option<int>>)
    ensures |r| == |keys| && forall i :: 0 <= i < |keys| ==> r[i] == ParseInt(keys[i])
  {
    if |keys| == 0 then [] else [ParseInt(keys[0])] + StudentIds(keys[1..])
  }

  lemma {:induction false} JoinAvoids(parts: seq<string>, c: char, d: char)
    requires c != d && forall i :: 0 <= i < |parts| ==> d !in parts[i]
    ensures d !in Join(parts, c)
    decreases |parts|
  {
    if |parts| > 1 {
      JoinAvoids(parts[1..], c, d);
    }
  }

  lemma DigitsAvoid(n: nat, d: char)
    requires !IsDigit(d)
    ensures d !in NatText(n)
  {
    NatTextDigits(n);
  }

  /** The ids' texts hold neither separator of the query. */
  lemma IdTextsAvoid(ids: seq<nat>)
    ensures forall i :: 0 <= i < |ids| ==>
      ',' !in TeacherClassManager.IdTexts(ids)[i] && '&' !in TeacherClassManager.IdTexts(ids)[i]
  {
    var texts := TeacherClassManager.IdTexts(ids);
    forall i | 0 <= i < |ids| ensures ',' !in texts[i] && '&' !in texts[i] {
      DigitsAvoid(ids[i], ',');
      DigitsAvoid(ids[i], '&');
    }
  }

  /** The query of a selection hands back the joined ids as its `students` parameter. */
  lemma AssignQueryParam(ids: seq<nat>)
    ensures QueryParam(TeacherClassManager.AssignSearch(ids), "students") ==
      Some(Join(TeacherClassManager.IdTexts(ids), ','))
  {
    var texts := TeacherClassManager.IdTexts(ids);
    var joined := Join(texts, ',');
    IdTextsAvoid(ids);
    JoinAvoids(texts, ',', '&');
    var search := TeacherClassManager.AssignSearch(ids);
    var body := "students=" + joined;
    assert search[1..] == body;
    assert '&' !in body;
    SegmentsOfFree(body, '&');
    assert "students" + "=" + joined == body;
    SplitPairOf("students", joined);
    assert SplitPair(body) == ("students", joined);
    assert FirstValue([body], "students") == Some(joined);
  }

  /** Joined and split again, the ids' texts come back, and the joined text is not empty. */
  lemma JoinedIdsSplit(ids: seq<nat>)
    requires |ids| >= 1
    ensures SplitAll(Join(TeacherClassManager.IdTexts(ids), ','), ',') == TeacherClassManager.IdTexts(ids)
    ensures Join(TeacherClassManager.IdTexts(ids), ',') != ""
  {
    var texts := TeacherClassManager.IdTexts(ids);
    IdTextsAvoid(ids);
    JoinThenSplitAll(texts, ',');
  }

  /**
   * The selection the class page sends arrives intact: the form's keys are
   * the ids' texts, and the ids it submits are the selected ids.
   */
  lemma SelectionRoundTrip(ids: seq<nat>, keys: seq<string>)
    requires |ids| >= 1
    ensures KeysFromQuery(TeacherClassManager.AssignSearch(ids), keys) == TeacherClassManager.IdTexts(ids)
    ensures forall i :: 0 <= i < |ids| ==>
      StudentIds(KeysFromQuery(TeacherClassManager.AssignSearch(ids), keys))[i] == Some(ids[i] as int)
  {
    var texts := TeacherClassManager.IdTexts(ids);
    AssignQueryParam(ids);
    JoinedIdsSplit(ids);
    forall i | 0 <= i < |ids| ensures ParseInt(texts[i]) == Some(ids[i] as int) {
      ParseIntText(ids[i]);
    }
  }

  /** A student as the transfer list holds it. */
  datatype TransferStudent = TransferStudent(key: string, id: nat, name: string, username: string, className: string)

  /** A student as fetched; its class name may be absent. */
  datatype FetchedStudent = FetchedStudent(id: nat, name: string, username: string, className: Option<string>)

  /** The fetched list's format: the key is the id's text, a falsy class name becomes '未分配班级'. */
  function Format(s: FetchedStudent): (t: TransferStudent)
    ensures t.key == NatText(s.id) && t.id == s.id && t.name == s.name && t.username == s.username
    ensures t.className == if Truthy(s.className) then s.className.value else "未分配班级"
  {
    TransferStudent(NatText(s.id), s.id, s.name, s.username,
      if Truthy(s.className) then s.className.value else "未分配班级")
  }

  /** A key parsed back gives the student's id, so a key from the query names a listed student. */
  lemma FormattedKeyParses(s: FetchedStudent)
    ensures ParseInt(Format(s).key) == Some(s.id as int)
  {
    ParseIntText(s.id);
  }

  /** `handleTargetTypeChange`: choosing 'class' clears the keys; 'student' keeps them. */
  function TargetTypeKeys(value: string, keys: seq<string>): (r: seq<string>)
    ensures value == "class" ==> r == []
    ensures value != "class" ==> r == keys
  {
    if value == "class" then [] else keys
  }

  datatype ClassOption = ClassOption(id: int, name: Option<string>)

  /**
   * `classes.find(c => c.id === classId)?.name`: the name of the first
   * class with that id, undefined when no class has it.
   */
  function FindClassName(classes: seq<ClassOption>, classId: int): (r: Option<string>)
    ensures r.Some? ==> exists j :: 0 <= j < |classes| && classes[j].id == classId && classes[j].name == r
    ensures forall j :: (0 <= j < |classes| && classes[j].id == classId &&
                         forall i :: 0 <= i < j ==> classes[i].id != classId) ==> r == classes[j].name
    ensures (forall j :: 0 <= j < |classes| ==> classes[j].id != classId) ==> r.None?
    decreases |classes|
  {
    if |classes| == 0 then None
    else if classes[0].id == classId then classes[0].name
    else
      var rest := FindClassName(classes[1..], classId);
      assert forall j :: 1 <= j < |classes| ==> classes[j] == classes[1..][j - 1];
      rest
  }

  /** Whether some selected class has the student's class name. */
  predicate InSelectedClass(s: TransferStudent, classIds: seq<int>, classes: seq<ClassOption>) {
    exists k :: 0 <= k < |classIds| && FindClassName(classes, classIds[k]) == Some(s.className)
  }

  function Keys(students: seq<TransferStudent>): (r: seq<string>)
    ensures |r| == |students| && forall i :: 0 <= i < |students| ==> r[i] == students[i].key
  {
    if |students| == 0 then [] else [students[0].key] + Keys(students[1..])
  }

  /**
   * `handleClassChange`: the keys of the students in one of the selected
   * classes, matched by class name; no selected class clears the keys.
   */
  function ClassKeys(classIds: seq<int>, classes: seq<ClassOption>, students: seq<TransferStudent>): (r: seq<string>)
    ensures classIds == [] ==> r == []
    ensures forall i :: 0 <= i < |students| && InSelectedClass(students[i], classIds, classes) ==> students[i].key in r
    ensures forall i :: 0 <= i < |r| ==>
      exists j :: 0 <= j < |students| && students[j].key == r[i] && InSelectedClass(students[j], classIds, classes)
  {
    if |classIds| == 0 then []
    else
      var picked := Filter(students, (s: TransferStudent) => InSelectedClass(s, classIds, classes));
      var r := Keys(picked);
      forall i | 0 <= i < |students| && InSelectedClass(students[i], classIds, classes) ensures students[i].key in r {
        var j :| 0 <= j < |picked| && picked[j] == students[i];
        assert r[j] == students[i].key;
      }
      forall i | 0 <= i < |r|
        ensures exists j :: 0 <= j < |students| && students[j].key == r[i] && InSelectedClass(students[j], classIds, classes)
      {
        assert picked[i] in students;
        var j :| 0 <= j < |students| && students[j] == picked[i];
      }
      r
  }

  /** The test of `selectedActivities.filter(id => id !== activityId)`. */
  function Other(id: int): int -> bool {
    x => x != id
  }

  /** Dropping every copy of an id leaves every other element as often as before. */
  lemma {:induction false} DropAllCounts(s: seq<int>, id: int)
    ensures multiset(Filter(s, Other(id))) == multiset(s)[id := 0]
    decreases |s|
  {
    if |s| > 0 {
      DropAllCounts(s[1..], id);
      assert s == [s[0]] + s[1..];
      assert multiset(s) == multiset{s[0]} + multiset(s[1..]);
    }
  }

  /**
   * `handleActivitySelect`: a selected activity is dropped, the others kept
   * in order with nothing added; any other is appended.
   */
  function ToggleActivity(selected: seq<int>, id: int): (r: seq<int>)
    ensures id in selected ==> id !in r && forall x :: x in selected && x != id ==> x in r
    ensures id in selected ==> forall x :: x in r ==> x in selected
    ensures id in selected ==> multiset(r) == multiset(selected)[id := 0]
    ensures id in selected ==> forall a, b :: selected == a + b ==> r == Filter(a, Other(id)) + Filter(b, Other(id))
    ensures id !in selected ==> r == selected + [id]
  {
    if id in selected then
      DropAllCounts(selected, id);
      assert forall a, b :: selected == a + b ==> Filter(a + b, Other(id)) == Filter(a, Other(id)) + Filter(b, Other(id)) by {
        forall a, b | selected == a + b ensures Filter(a + b, Other(id)) == Filter(a, Other(id)) + Filter(b, Other(id)) {
          FilterAppend(a, b, Other(id));
        }
      }
      Filter(selected, Other(id))
    else selected + [id]
  }

  /**
   * Toggling the same activity twice gives back the same set of
   * activities, and the same list when it was not selected before.
   */
  lemma ToggleTwice(selected: seq<int>, id: int)
    ensures (set x | x in ToggleActivity(ToggleActivity(selected, id), id)) == (set x | x in selected)
    ensures id !in selected ==> ToggleActivity(ToggleActivity(selected, id), id) == selected
  {
    var once := ToggleActivity(selected, id);
    if id !in selected {
      assert id in once;
      FilterDrops(selected, id);
    } else {
      assert ToggleActivity(once, id) == once + [id];
      forall x | x in once + [id] ensures x in selected {
        if x != id {
          assert x in once;
        }
      }
    }
  }

  /** Dropping an id from a list that is the original plus that id gives the original back. */
  lemma FilterDrops(selected: seq<int>, id: int)
    requires id !in selected
    ensures Filter(selected + [id], Other(id)) == selected
  {
    FilterAppend(selected, [id], Other(id));
    FilterKeepsAll(selected, Other(id));
    assert Filter([id], Other(id)) == [];
  }

  /**
   * The form's fields: the target type, the chosen classes (mounted only
   * for the class type), the title, the description and the picked deadline.
   */
  datatype TargetValues = TargetValues(targetType: Option<string>, classes: Option<seq<int>>,
                                       title: Option<string>, description: Option<string>, deadline: Option<int>)

  /**
   * What the submit sends: the spread form fields, the deadline replaced by
   * its text, the student ids and the activities.
   */
  datatype TargetPayload = TargetPayload(targetType: Option<string>, classes: Option<seq<int>>,
                                         title: Option<string>, description: Option<string>, deadline: Option<string>,
                                         students: seq<Option<int>>, activities: seq<int>)

  /**
   * `onFinish`: no chosen student only warns; otherwise the form's fields,
   * the deadline formatted by `format` when one was picked, one parsed id
   * per key and the selected activities.
   */
  function TargetSubmission(keys: seq<string>, values: TargetValues, selected: seq<int>, format: int -> string)
    : (r: Result<TargetPayload, string>)
    ensures keys == [] <==> r == Err("请至少选择一名学生")
    ensures r.Ok? ==> r.value.targetType == values.targetType && r.value.classes == values.classes &&
                      r.value.title == values.title && r.value.description == values.description
    ensures r.Ok? ==> |r.value.students| == |keys| && r.value.activities == selected
    ensures r.Ok? ==> forall i :: 0 <= i < |keys| ==> r.value.students[i] == ParseInt(keys[i])
    ensures r.Ok? ==> (r.value.deadline.Some? <==> values.deadline.Some?)
    ensures r.Ok? && values.deadline.Some? ==> r.value.deadline == Some(format(values.deadline.value))
  {
    if |keys| == 0 then Err("请至少选择一名学生")
    else Ok(TargetPayload(values.targetType, values.classes, values.title, values.description,
                          if values.deadline.Some? then Some(format(values.deadline.value)) else None,
                          StudentIds(keys), selected))
  }

  /** The form's state that the handlers change. */
  class TargetFormPage {
    var targetKeys: seq<string>
    var targetType: string
    var selectedActivities: seq<int>

    constructor ()
      ensures targetKeys == [] && targetType == "student" && selectedActivities == []
    {
      targetKeys := [];
      targetType := "student";
      selectedActivities := [];
    }

    /** The mount effect's reading of the query. */
    method ReadQuery(search: string)
      modifies this
      ensures targetKeys == KeysFromQuery(search, old(targetKeys))
      ensures targetType == old(targetType) && selectedActivities == old(selectedActivities)
    {
      var ids := QueryParam(search, "students");
      if Truthy(ids) {
        targetKeys := SplitAll(ids.value, ',');
      }
    }

    method HandleTargetTypeChange(value: string)
      modifies this
      ensures targetType == value && targetKeys == TargetTypeKeys(value, old(targetKeys))
      ensures selectedActivities == old(selectedActivities)
    {
      targetType := value;
      if value == "class" {
        targetKeys := [];
      }
    }

    method HandleClassChange(classIds: seq<int>, classes: seq<ClassOption>, students: seq<TransferStudent>)
      modifies this
      ensures targetKeys == ClassKeys(classIds, classes, students)
      ensures targetType == old(targetType) && selectedActivities == old(selectedActivities)
    {
      targetKeys := ClassKeys(classIds, classes, students);
    }

    method HandleActivitySelect(id: int)
      modifies this
      ensures selectedActivities == ToggleActivity(old(selectedActivities), id)
      ensures targetKeys == old(targetKeys) && targetType == old(targetType)
    {
      selectedActivities := ToggleActivity(selectedActivities, id);
    }

    /** The submit; on success the page goes to the target list. */
    method OnFinish(values: TargetValues, format: int -> string, posted: bool)
      returns (payload: Option<TargetPayload>, toast: string, navigation: Option<string>)
      ensures targetKeys == [] ==> payload.None? && toast == "请至少选择一名学生" && navigation.None?
      ensures targetKeys != [] ==> payload == Some(TargetSubmission(targetKeys, values, selectedActivities, format).value)
      ensures targetKeys != [] && posted ==> toast == "学习目标创建成功" && navigation == Some("/teacher/targets")
      ensures targetKeys != [] && !posted ==> toast == "创建失败，请重试" && navigation.None?
    {
      var submission := TargetSubmission(targetKeys, values, selectedActivities, format);
      if submission.Err? {
        return None, submission.error, None;
      }
      payload := Some(submission.value);
      if posted {
        toast := "学习目标创建成功";
        navigation := Some("/teacher/targets");
      } else {
        toast := "创建失败，请重试";
        navigation := None;
      }
    }
  }
}
