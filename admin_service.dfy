/**
 * AdminService.java: an administrator creates classes and reassigns their
 * teachers, each write leaving one audit entry, and reads teacher and
 * class summaries. The methods are transactional: a failed call saves
 * neither the class nor the entry.
 */
module AdminServices {
  import opened Wrappers
  import opened JavaStrings
  import opened Users
  import opened Activities
  import opened Classes
  import opened Logs
  import opened Scripts

  datatype AdminError =
    | TeacherMissing
    | NotTeacher
    | ClassNotFound
    /** A NullPointerException: a class without a teacher is read. */
    | NoTeacher

  function Message(e: AdminError): Option<string> {
    match e
    case TeacherMissing => Some("教师不存在")
    case NotTeacher => Some("只有教师可以被分配为班级教师")
    case ClassNotFound => Some("班级不存在")
    case NoTeacher => None
  }

  /** The check of a user picked as a class's teacher: it exists and has the TEACHER role. */
  function TeacherCheck(users: map<UserId, User>, teacherId: UserId): (e: Option<AdminError>)
    ensures e.None? <==> teacherId in users && users[teacherId].role == TEACHER
    ensures teacherId !in users ==> e == Some(TeacherMissing)
    ensures teacherId in users && users[teacherId].role != TEACHER ==> e == Some(NotTeacher)
  {
    if teacherId !in users then Some(TeacherMissing)
    else if users[teacherId].role != TEACHER then Some(NotTeacher)
    else None
  }

  /** The detail of the CLASS_CREATE entry. */
  function CreateLogDetail(name: Option<string>, classId: ClassId, teacherUsername: string): string {
    "管理员创建了班级: " + Text(name) + ", 班级ID: " + LongText(classId) + ", 分配教师: " + teacherUsername
  }

  const ReassignMarker: string := ", 重新分配教师ID: "

  /** The detail of the CLASS_UPDATE entry: the reassignment part appears only with a teacher id. */
  function UpdateLogDetail(name: Option<string>, classId: ClassId, teacherId: Option<UserId>): (d: string)
    ensures teacherId.None? ==> d == "管理员更新了班级: " + Text(name) + ", 班级ID: " + LongText(classId)
    ensures teacherId.Some? ==> Contains(d, ReassignMarker + LongText(teacherId.value))
    ensures teacherId.Some? ==>
      d == "管理员更新了班级: " + Text(name) + ", 班级ID: " + LongText(classId) + ReassignMarker + LongText(teacherId.value)
  {
    var base := "管理员更新了班级: " + Text(name) + ", 班级ID: " + LongText(classId);
    if teacherId.None? then base
    else
      var reassigned := ReassignMarker + LongText(teacherId.value);
      ContainsSuffix(base, reassigned);
      base + reassigned
  }

  /** `classRepository.findByTeacherId(t).size()`: the classes that teacher t holds. */
  function ManagedClassCount(classes: map<ClassId, ClassEntity>, t: UserId): nat {
    |set c | c in classes && classes[c].teacher == Some(t)|
  }

  /** Storing one class under a fresh id adds one to its teacher's count and nothing to anybody else's. */
  lemma ManagedCountAfterNewClass(classes: map<ClassId, ClassEntity>, c: ClassEntity, t: UserId)
    requires c.id !in classes
    ensures ManagedClassCount(classes[c.id := c], t) ==
            ManagedClassCount(classes, t) + (if c.teacher == Some(t) then 1 else 0)
  {
    var before := set k | k in classes && classes[k].teacher == Some(t);
    var m := classes[c.id := c];
    var after := set k | k in m && m[k].teacher == Some(t);
    if c.teacher == Some(t) {
      assert after == before + {c.id};
    } else {
      assert after == before;
    }
  }

  /** The classes of t other than id. */
  ghost function OthersOf(classes: map<ClassId, ClassEntity>, t: UserId, id: ClassId): set<ClassId> {
    set k | k in classes && k != id && classes[k].teacher == Some(t)
  }

  /** t's count is the classes of t other than id, plus id itself when t teaches it. */
  lemma CountSplit(classes: map<ClassId, ClassEntity>, t: UserId, id: ClassId)
    requires id in classes
    ensures ManagedClassCount(classes, t) == |OthersOf(classes, t, id)| + (if classes[id].teacher == Some(t) then 1 else 0)
  {
    var all := set k | k in classes && classes[k].teacher == Some(t);
    var others := OthersOf(classes, t, id);
    if classes[id].teacher == Some(t) {
      assert all == others + {id};
    } else {
      assert all == others;
    }
  }

  /**
   * Replacing a stored class moves one unit of count from its old teacher
   * to its new one; the counts of every other teacher stay.
   */
  lemma ManagedCountAfterReassign(classes: map<ClassId, ClassEntity>, c: ClassEntity, t: UserId)
    requires c.id in classes
    ensures ManagedClassCount(classes[c.id := c], t) ==
            ManagedClassCount(classes, t) - (if classes[c.id].teacher == Some(t) then 1 else 0)
                                          + (if c.teacher == Some(t) then 1 else 0)
  {
    var m := classes[c.id := c];
    CountSplit(classes, t, c.id);
    CountSplit(m, t, c.id);
    assert OthersOf(m, t, c.id) == OthersOf(classes, t, c.id);
  }

  /** Some class is taught by t: `findDistinctTeachers` lists t. */
  predicate Assigned(classes: map<ClassId, ClassEntity>, t: UserId) {
    exists c :: c in classes && classes[c].teacher == Some(t)
  }

  /** The test `findByRole(TEACHER)` applies to an account id. */
  function IsTeacherIn(users: map<UserId, User>): UserId -> bool {
    id => id in users && users[id].role == TEACHER
  }

  /**
   * `userRepository.findByRole(TEACHER)`: the teachers of `order`, the
   * table's row order, i.e. that order filtered by the role.
   */
  function TeachersOf(users: map<UserId, User>, order: seq<UserId>): (r: seq<UserId>)
    requires forall k :: 0 <= k < |order| ==> order[k] in users
    ensures r == Filter(order, IsTeacherIn(users))
    ensures forall k :: 0 <= k < |r| ==> r[k] in users && r[k] in order && users[r[k]].role == TEACHER
    ensures forall k :: 0 <= k < |order| && users[order[k]].role == TEACHER ==> order[k] in r
    decreases |order|
  {
    if |order| == 0 then []
    else
      var kept := TeachersOf(users, order[..|order| - 1]);
      FilterSnoc(order[..|order| - 1], order[|order| - 1], IsTeacherIn(users));
      assert order[..|order| - 1] + [order[|order| - 1]] == order;
      if users[order[|order| - 1]].role == TEACHER then kept + [order[|order| - 1]] else kept
  }

  /** The test `removeAll(assigned)` keeps a teacher by. */
  function Unassigned(classes: map<ClassId, ClassEntity>): UserId -> bool {
    t => !Assigned(classes, t)
  }

  /** `removeAll(assigned)` on a list of teachers: the ones with no class, in the same order. */
  function WithoutClass(classes: map<ClassId, ClassEntity>, teachers: seq<UserId>): (r: seq<UserId>)
    ensures r == Filter(teachers, Unassigned(classes))
    ensures forall k :: 0 <= k < |r| ==> r[k] in teachers && !Assigned(classes, r[k])
    ensures forall k :: 0 <= k < |teachers| && !Assigned(classes, teachers[k]) ==> teachers[k] in r
    ensures |r| <= |teachers|
    decreases |teachers|
  {
    if |teachers| == 0 then []
    else
      var kept := WithoutClass(classes, teachers[..|teachers| - 1]);
      FilterSnoc(teachers[..|teachers| - 1], teachers[|teachers| - 1], Unassigned(classes));
      assert teachers[..|teachers| - 1] + [teachers[|teachers| - 1]] == teachers;
      if Assigned(classes, teachers[|teachers| - 1]) then kept else kept + [teachers[|teachers| - 1]]
  }

  /** One more teacher: `WithoutClass` keeps it iff it has no class. */
  lemma WithoutClassStep(classes: map<ClassId, ClassEntity>, teachers: seq<UserId>, i: nat)
    requires i < |teachers|
    ensures WithoutClass(classes, teachers[..i + 1]) ==
      WithoutClass(classes, teachers[..i]) + (if Assigned(classes, teachers[i]) then [] else [teachers[i]])
  {
    assert teachers[..i + 1][..i] == teachers[..i];
  }

  /** What `getClassDetail` reports, without the formatted dates and the users' details. */
  datatype ClassSummary = ClassSummary(id: ClassId, name: Option<string>, description: Option<string>,
                                       teacher: UserId, students: seq<UserId>, studentCount: nat)

  /** `getClassDetail`: the student count is the length of the list it returns. */
  function ClassDetail(classes: map<ClassId, ClassEntity>, classId: ClassId): (r: Result<ClassSummary, AdminError>)
    ensures classId !in classes ==> r == Err(ClassNotFound)
    ensures classId in classes && classes[classId].teacher.None? ==> r == Err(NoTeacher)
    ensures r.Ok? ==>
      classId in classes && Some(r.value.teacher) == classes[classId].teacher &&
      r.value.students == classes[classId].students && r.value.studentCount == |r.value.students|
  {
    if classId !in classes then Err(ClassNotFound)
    else
      var c := classes[classId];
      if c.teacher.None? then Err(NoTeacher)
      else Ok(ClassSummary(c.id, c.name, c.description, c.teacher.value, c.students, |c.students|))
  }

  class AdminService {
    /** userRepository, by id */
    var users: map<UserId, User>
    /** classRepository, by id */
    var classes: map<ClassId, ClassEntity>
    var nextClassId: ClassId
    /** where the CLASS_CREATE and CLASS_UPDATE entries go */
    const logService: LogService

    ghost predicate Valid()
      reads this, logService
    {
      logService.Valid() &&
      forall c :: c in classes ==> classes[c].id == c && c < nextClassId
    }

    constructor (users: map<UserId, User>, logService: LogService)
      requires logService.Valid()
      ensures Valid()
      ensures this.users == users && classes == map[] && this.logService == logService
    {
      this.users := users;
      classes := map[];
      nextClassId := 1;
      this.logService := logService;
    }

    /** `createClass`: a new class taught by a TEACHER, and one CLASS_CREATE entry by the admin. */
    method CreateClass(name: Option<string>, description: Option<string>, teacherId: UserId,
                       ipAddress: string, admin: Option<User>, now: Instant)
      returns (r: Result<ClassEntity, AdminError>)
      requires Valid()
      modifies this, logService
      ensures Valid()
      ensures users == old(users)
      ensures TeacherCheck(users, teacherId).Some? ==>
        r == Err(TeacherCheck(users, teacherId).value) &&
        classes == old(classes) && logService.logs == old(logService.logs)
      ensures TeacherCheck(users, teacherId).None? ==>
        r == Ok(ClassEntity(old(nextClassId), name, description, Some(teacherId), [])) &&
        classes == old(classes)[r.value.id := r.value] &&
        logService.logs == old(logService.logs)[old(logService.nextLogId) :=
          NewLog(old(logService.nextLogId), CLASS_CREATE,
                 CreateLogDetail(name, r.value.id, users[teacherId].username), admin, ipAddress, now)]
    {
      var e := TeacherCheck(users, teacherId);
      if e.Some? {
        return Err(e.value);
      }
      var c := ClassEntity(nextClassId, name, description, Some(teacherId), []);
      classes := classes[c.id := c];
      nextClassId := nextClassId + 1;
      var _ := logService.CreateLog(CLASS_CREATE, CreateLogDetail(name, c.id, users[teacherId].username),
                                    admin, ipAddress, now);
      return Ok(c);
    }

    /** The checks of `updateClass`: the class exists, and a given teacher id names a TEACHER. */
    function UpdateCheck(classId: ClassId, teacherId: Option<UserId>): (e: Option<AdminError>)
      reads this
      ensures e.None? <==> classId in classes && (teacherId.Some? ==> TeacherCheck(users, teacherId.value).None?)
      ensures classId !in classes ==> e == Some(ClassNotFound)
      ensures classId in classes && teacherId.Some? ==> e == TeacherCheck(users, teacherId.value)
    {
      if classId !in classes then Some(ClassNotFound)
      else if teacherId.Some? then TeacherCheck(users, teacherId.value)
      else None
    }

    /**
     * `updateClass`: name and description are always overwritten; the
     * teacher changes only when a teacher id is given; one CLASS_UPDATE entry.
     */
    method UpdateClass(classId: ClassId, name: Option<string>, description: Option<string>, teacherId: Option<UserId>,
                       ipAddress: string, admin: Option<User>, now: Instant)
      returns (r: Result<ClassEntity, AdminError>)
      requires Valid()
      modifies this, logService
      ensures Valid()
      ensures users == old(users)
      ensures old(UpdateCheck(classId, teacherId)).Some? ==>
        r == Err(old(UpdateCheck(classId, teacherId)).value) &&
        classes == old(classes) && logService.logs == old(logService.logs)
      ensures old(UpdateCheck(classId, teacherId)).None? ==>
        r == Ok(old(classes)[classId].(name := name, description := description,
                                       teacher := if teacherId.Some? then teacherId else old(classes)[classId].teacher)) &&
        classes == old(classes)[classId := r.value] &&
        logService.logs == old(logService.logs)[old(logService.nextLogId) :=
          NewLog(old(logService.nextLogId), CLASS_UPDATE, UpdateLogDetail(name, classId, teacherId), admin, ipAddress, now)]
    {
      var e := UpdateCheck(classId, teacherId);
      if e.Some? {
        return Err(e.value);
      }
      var c := classes[classId].(name := name, description := description);
      if teacherId.Some? {
        c := c.(teacher := teacherId);
      }
      classes := classes[classId := c];
      var _ := logService.CreateLog(CLASS_UPDATE, UpdateLogDetail(name, classId, teacherId), admin, ipAddress, now);
      return Ok(c);
    }

    /**
     * `getUnassignedTeachers`: copies the teacher list and removes every
     * teacher some class has, keeping the order of the rest.
     */
    method GetUnassignedTeachers(order: seq<UserId>) returns (r: seq<UserId>)
      requires forall k :: 0 <= k < |order| ==> order[k] in users
      ensures r == WithoutClass(classes, TeachersOf(users, order))
      ensures forall k :: 0 <= k < |r| ==> r[k] in users && users[r[k]].role == TEACHER && !Assigned(classes, r[k])
      ensures forall k :: 0 <= k < |order| && users[order[k]].role == TEACHER && !Assigned(classes, order[k]) ==>
        order[k] in r
    {
      var teachers := TeachersOf(users, order);
      r := [];
      var i := 0;
      while i < |teachers|
        invariant 0 <= i <= |teachers|
        invariant r == WithoutClass(classes, teachers[..i])
      {
        WithoutClassStep(classes, teachers, i);
        if !Assigned(classes, teachers[i]) {
          r := r + [teachers[i]];
        }
        i := i + 1;
      }
      assert teachers[..|teachers|] == teachers;
    }
  }
}
