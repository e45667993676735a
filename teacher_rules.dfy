/**
 * The checks and the field-by-field edits of TeacherService.java, as
 * functions of the repositories' contents and of the request map. The
 * service class that applies them is in module TeacherServices.
 */
module TeacherRules {
  import opened Wrappers
  import opened JavaStrings
  import opened Users
  import opened Activities
  import opened Classes
  import opened Scripts

  type GoalId = int
  type EvaluationId = int

  /** LearningGoal.GoalStatus */
  datatype GoalStatus = IN_PROGRESS | COMPLETED | PENDING_REVIEW

  function GoalStatusName(s: GoalStatus): string {
    if s.IN_PROGRESS? then "IN_PROGRESS"
    else if s.COMPLETED? then "COMPLETED"
    else "PENDING_REVIEW"
  }

  /** `GoalStatus.valueOf(s)`: exact constant names only. */
  function GoalStatusValueOf(s: string): (r: Option<GoalStatus>)
    ensures r.Some? ==> GoalStatusName(r.value) == s
    ensures r.None? ==> forall x: GoalStatus :: GoalStatusName(x) != s
  {
    if s == "IN_PROGRESS" then Some(IN_PROGRESS)
    else if s == "COMPLETED" then Some(GoalStatus.COMPLETED)
    else if s == "PENDING_REVIEW" then Some(PENDING_REVIEW)
    else None
  }

  lemma GoalStatusValueOfName(s: GoalStatus)
    ensures GoalStatusValueOf(GoalStatusName(s)) == Some(s)
  {
  }

  /** One row of learning_goals; `title` is a non-null column. */
  datatype Goal = Goal(
    id: GoalId,
    title: string,
    description: Option<string>,
    dueDate: Option<Instant>,
    progress: int,
    status: GoalStatus,
    student: UserId,
    teacher: UserId)

  /** One evaluation a teacher wrote about a student. */
  datatype Evaluation = Evaluation(
    id: EvaluationId,
    student: UserId,
    teacher: UserId,
    content: Option<string>,
    grade: Option<string>)

  datatype TeacherError =
    | TeacherNotFound
    | ActivityNotFound
    | NoActivityEditRight
    | NoActivityDeleteRight
    | InvalidActivityType
    | ClassNotFound
    | NoClassViewRight
    | NoClassUpdateRight
    | NoClassDeleteRight
    | StudentNotFound
    | NotStudentRole
    | EvaluationNotFound
    | NoEvaluationUpdateRight
    | NoEvaluationDeleteRight
    | GoalNotFound
    | NoGoalViewRight
    | NoGoalUpdateRight
    | NoGoalDeleteRight
    | InvalidGoalStatus
    /** A NullPointerException: a null value dereferenced, or a class without a teacher. */
    | NullValue
    /** A DateTimeParseException from `LocalDateTime.parse`. */
    | BadDateTime
    /** A NumberFormatException from `Long.valueOf`. */
    | BadNumber
    /** The database refuses a null in a non-null column when the row is saved. */
    | NullColumn
    /** The database refuses to delete a row that a non-null foreign key of another table still names. */
    | StillReferenced

  /** The text of the RuntimeExceptions the service throws itself. */
  function Message(e: TeacherError): Option<string> {
    match e
    case TeacherNotFound => Some("教师用户不存在")
    case ActivityNotFound => Some("活动不存在")
    case NoActivityEditRight => Some("您无权修改此活动")
    case NoActivityDeleteRight => Some("您无权删除此活动")
    case InvalidActivityType => Some("无效的活动类型")
    case ClassNotFound => Some("班级不存在")
    case NoClassViewRight => Some("没有权限查看此班级")
    case NoClassUpdateRight => Some("没有权限更新此班级")
    case NoClassDeleteRight => Some("没有权限删除此班级")
    case StudentNotFound => Some("学生不存在")
    case NotStudentRole => Some("只能将学生角色的用户添加到班级")
    case EvaluationNotFound => Some("评估不存在")
    case NoEvaluationUpdateRight => Some("没有权限更新此评估")
    case NoEvaluationDeleteRight => Some("没有权限删除此评估")
    case GoalNotFound => Some("学习目标不存在")
    case NoGoalViewRight => Some("没有权限查看此学习目标")
    case NoGoalUpdateRight => Some("没有权限更新此学习目标")
    case NoGoalDeleteRight => Some("没有权限删除此学习目标")
    case InvalidGoalStatus => Some("无效的目标状态")
    case _ => None
  }

  /** `userRepository.findByUsername(username).orElseThrow(...)`: the calling teacher. */
  function TeacherOf(users: map<UserId, User>, username: string): (r: Result<UserId, TeacherError>)
    requires UniqueAccounts(users)
    ensures r.Ok? <==> UsernameTaken(users, username)
    ensures r.Err? ==> r.error == TeacherNotFound
    ensures r.Ok? ==> r.value in users && users[r.value].username == username
  {
    match FindByUsername(users, username)
    case None => Err(TeacherNotFound)
    case Some(i) => Ok(i)
  }

  // ----- activities -----

  /** The request map of createActivity / updateActivity. */
  datatype ActivityData = ActivityData(
    title: Entry<string>,
    description: Entry<string>,
    location: Entry<string>,
    organizer: Entry<string>,
    maxParticipants: Entry<int>,
    activityType: Entry<string>,
    startTime: Entry<string>,
    endTime: Entry<string>)

  /**
   * The activity `createActivity` saves, with `parse` standing for
   * `LocalDateTime.parse(_, "yyyy-MM-dd HH:mm:ss")`. Errors come in the order
   * the statements run: the participant limit, the type, the two times, and
   * last the non-null columns checked when the row is saved.
   */
  function NewActivity(data: ActivityData, id: ActivityId, teacher: UserId,
                       parse: string -> Option<Instant>): (r: Result<Activity, TeacherError>)
    ensures r.Ok? <==>
      (data.maxParticipants.Present? && data.activityType.Present? && TypeValueOf(data.activityType.value).Some? &&
       data.startTime.Present? && parse(data.startTime.value).Some? &&
       data.endTime.Present? && parse(data.endTime.value).Some? &&
       data.title.Present? && data.location.Present? && data.organizer.Present?)
    // a new activity is open, empty, and belongs to its creator
    ensures r.Ok? ==>
      r.value.id == id && r.value.currentParticipants == 0 && r.value.status == UPCOMING &&
      r.value.creator == Some(teacher)
    ensures r.Ok? ==>
      r.value.title == data.title.value && r.value.description == Get(data.description) &&
      r.value.location == data.location.value && r.value.organizer == data.organizer.value &&
      r.value.maxParticipants == data.maxParticipants.value &&
      TypeName(r.value.activityType) == data.activityType.value &&
      Some(r.value.startTime) == parse(data.startTime.value) && Some(r.value.endTime) == parse(data.endTime.value)
    ensures !data.maxParticipants.Present? ==> r == Err(NullValue)
    // an unknown type is refused under its own message
    ensures (data.maxParticipants.Present? && data.activityType.Present? &&
             TypeValueOf(data.activityType.value).None?) ==> r == Err(InvalidActivityType)
  {
    if !data.maxParticipants.Present? then Err(NullValue)
    else if !data.activityType.Present? then Err(NullValue)
    else
      match TypeValueOf(data.activityType.value)
      case None => Err(InvalidActivityType)
      case Some(t) =>
        if !data.startTime.Present? then Err(NullValue)
        else if parse(data.startTime.value).None? then Err(BadDateTime)
        else if !data.endTime.Present? then Err(NullValue)
        else if parse(data.endTime.value).None? then Err(BadDateTime)
        else if !data.title.Present? || !data.location.Present? || !data.organizer.Present? then Err(NullColumn)
        else
          Ok(Activity(id, data.title.value, Get(data.description), data.location.value, data.organizer.value,
                      data.maxParticipants.value, 0, UPCOMING, t,
                      parse(data.startTime.value).value, parse(data.endTime.value).value, Some(teacher)))
  }

  /** `updateActivity`'s check: only the creator, but an activity without a creator is anyone's. */
  function ActivityOwnerCheck(a: Activity, teacher: UserId, denied: TeacherError): (e: Option<TeacherError>)
    ensures e.None? <==> a.creator.None? || a.creator == Some(teacher)
    ensures e.Some? ==> e == Some(denied)
  {
    if a.creator.Some? && a.creator.value != teacher then Some(denied) else None
  }

  /** Both time keys are present: the only case in which the times are replaced. */
  predicate TimesGiven(data: ActivityData) {
    !data.startTime.Absent? && !data.endTime.Absent?
  }

  /**
   * The activity after `updateActivity`'s field-by-field edit: each field is
   * replaced only when its key is present, the two times only together, and
   * the counter, the status and the creator never.
   */
  function ActivityPatched(a: Activity, data: ActivityData, parse: string -> Option<Instant>): (r: Result<Activity, TeacherError>)
    ensures r.Ok? ==>
      r.value.id == a.id && r.value.currentParticipants == a.currentParticipants &&
      r.value.status == a.status && r.value.creator == a.creator
    ensures r.Ok? ==>
      !data.title.Null? && !data.location.Null? && !data.organizer.Null? &&
      !data.maxParticipants.Null? && !data.activityType.Null?
    ensures r.Ok? ==>
      r.value.title == Patch(a.title, data.title) &&
      r.value.description == PatchNullable(a.description, data.description) &&
      r.value.location == Patch(a.location, data.location) &&
      r.value.organizer == Patch(a.organizer, data.organizer) &&
      r.value.maxParticipants == Patch(a.maxParticipants, data.maxParticipants)
    ensures r.Ok? ==>
      (data.activityType.Absent? ==> r.value.activityType == a.activityType) &&
      (data.activityType.Present? ==> TypeName(r.value.activityType) == data.activityType.value)
    ensures r.Ok? && !TimesGiven(data) ==> r.value.startTime == a.startTime && r.value.endTime == a.endTime
    ensures r.Ok? && TimesGiven(data) ==> data.startTime.Present? && data.endTime.Present?
    ensures r.Ok? && TimesGiven(data) && data.startTime.Present? && data.endTime.Present? ==>
      Some(r.value.startTime) == parse(data.startTime.value) && Some(r.value.endTime) == parse(data.endTime.value)
    // an unknown type is refused
    ensures (!data.maxParticipants.Null? && data.activityType.Present? && TypeValueOf(data.activityType.value).None?) ==>
      r == Err(InvalidActivityType)
    // a present title, location or organizer must not be null
    ensures (data.title.Null? || data.location.Null? || data.organizer.Null?) ==> r.Err?
  {
    if data.maxParticipants.Null? then Err(NullValue)
    else if data.activityType.Null? then Err(NullValue)
    else if data.activityType.Present? && TypeValueOf(data.activityType.value).None? then Err(InvalidActivityType)
    else if TimesGiven(data) && data.startTime.Null? then Err(NullValue)
    else if TimesGiven(data) && parse(data.startTime.value).None? then Err(BadDateTime)
    else if TimesGiven(data) && data.endTime.Null? then Err(NullValue)
    else if TimesGiven(data) && parse(data.endTime.value).None? then Err(BadDateTime)
    else if data.title.Null? || data.location.Null? || data.organizer.Null? then Err(NullColumn)
    else
      Ok(a.(
        title := Patch(a.title, data.title),
        description := PatchNullable(a.description, data.description),
        location := Patch(a.location, data.location),
        organizer := Patch(a.organizer, data.organizer),
        maxParticipants := Patch(a.maxParticipants, data.maxParticipants),
        activityType := if data.activityType.Absent? then a.activityType else TypeValueOf(data.activityType.value).value,
        startTime := if TimesGiven(data) then parse(data.startTime.value).value else a.startTime,
        endTime := if TimesGiven(data) then parse(data.endTime.value).value else a.endTime))
  }

  /** An empty request map leaves the activity as it was. */
  lemma {:induction false} EmptyPatchKeepsActivity(a: Activity, parse: string -> Option<Instant>)
    ensures ActivityPatched(a, ActivityData(Absent, Absent, Absent, Absent, Absent, Absent, Absent, Absent), parse) == Ok(a)
  {
  }

  /** Sending the same edit twice changes nothing the first one did not. */
  lemma {:induction false} ActivityPatchIdempotent(a: Activity, data: ActivityData, parse: string -> Option<Instant>)
    requires ActivityPatched(a, data, parse).Ok?
    ensures ActivityPatched(ActivityPatched(a, data, parse).value, data, parse) == ActivityPatched(a, data, parse)
  {
    var b := ActivityPatched(a, data, parse).value;
    if data.activityType.Present? {
      assert TypeValueOf(TypeName(b.activityType)) == Some(b.activityType) by {
        TypeValueOfName(b.activityType);
      }
    }
  }

  /** The test of `findByCreator(teacher)` on an activity id. */
  function CreatorIs(activities: map<ActivityId, Activity>, teacher: UserId): ActivityId -> bool {
    id => id in activities && activities[id].creator == Some(teacher)
  }

  /** The activity ids of `order` created by teacher, in the same order (`findByCreator`). */
  function CreatedBy(activities: map<ActivityId, Activity>, order: seq<ActivityId>, teacher: UserId): (r: seq<ActivityId>)
    requires forall k :: 0 <= k < |order| ==> order[k] in activities
    ensures r == Filter(order, CreatorIs(activities, teacher))
    ensures forall k :: 0 <= k < |r| ==> r[k] in order && activities[r[k]].creator == Some(teacher)
    ensures forall k :: 0 <= k < |order| && activities[order[k]].creator == Some(teacher) ==> order[k] in r
    ensures |r| <= |order|
    decreases |order|
  {
    if |order| == 0 then []
    else
      var rest := CreatedBy(activities, order[1..], teacher);
      if activities[order[0]].creator == Some(teacher) then [order[0]] + rest else rest
  }

  // ----- classes -----

  /**
   * The checks `getClassDetail`, `updateClass`, `deleteClass` and the roster
   * edits share: the class exists and `getTeacher().getId()` is the caller.
   */
  function ClassOwnerCheck(classes: map<ClassId, ClassEntity>, classId: ClassId, teacher: UserId,
                           denied: TeacherError): (e: Option<TeacherError>)
    ensures e.None? <==> classId in classes && classes[classId].teacher == Some(teacher)
    ensures classId !in classes ==> e == Some(ClassNotFound)
    ensures classId in classes && classes[classId].teacher.None? ==> e == Some(NullValue)
    ensures (classId in classes && classes[classId].teacher.Some? && classes[classId].teacher != Some(teacher)) ==>
      e == Some(denied)
  {
    if classId !in classes then Some(ClassNotFound)
    else if classes[classId].teacher.None? then Some(NullValue)
    else if classes[classId].teacher.value != teacher then Some(denied)
    else None
  }

  /** The map `getClassDetail` returns, without the formatted dates. */
  datatype ClassDetail = ClassDetail(id: ClassId, name: Option<string>, description: Option<string>,
                                     studentCount: nat, students: seq<UserId>)

  function ClassDetailOf(c: ClassEntity): (d: ClassDetail)
    ensures d.studentCount == |c.students| && d.students == c.students
    ensures d.id == c.id && d.name == c.name && d.description == c.description
  {
    ClassDetail(c.id, c.name, c.description, |c.students|, c.students)
  }

  /** `addStudentToClass`'s checks: ownership, then a user with the STUDENT role. */
  function AddStudentCheck(users: map<UserId, User>, classes: map<ClassId, ClassEntity>, classId: ClassId,
                           studentId: UserId, teacher: UserId): (e: Option<TeacherError>)
    ensures e.None? <==> (classId in classes && classes[classId].teacher == Some(teacher) &&
                          studentId in users && users[studentId].role == STUDENT)
    ensures classId !in classes || classes[classId].teacher != Some(teacher) ==>
      e == ClassOwnerCheck(classes, classId, teacher, NoClassUpdateRight)
    ensures (classId in classes && classes[classId].teacher == Some(teacher) && studentId !in users) ==>
      e == Some(StudentNotFound)
    ensures (classId in classes && classes[classId].teacher == Some(teacher) && studentId in users &&
             users[studentId].role != STUDENT) ==> e == Some(NotStudentRole)
  {
    var owner := ClassOwnerCheck(classes, classId, teacher, NoClassUpdateRight);
    if owner.Some? then owner
    else if studentId !in users then Some(StudentNotFound)
    else if users[studentId].role != STUDENT then Some(NotStudentRole)
    else None
  }

  /** `removeStudentFromClass`'s checks: ownership and an existing user, but NOT membership. */
  function RemoveStudentCheck(users: map<UserId, User>, classes: map<ClassId, ClassEntity>, classId: ClassId,
                              studentId: UserId, teacher: UserId): (e: Option<TeacherError>)
    ensures e.None? <==> classId in classes && classes[classId].teacher == Some(teacher) && studentId in users
    ensures classId !in classes || classes[classId].teacher != Some(teacher) ==>
      e == ClassOwnerCheck(classes, classId, teacher, NoClassUpdateRight)
    ensures (classId in classes && classes[classId].teacher == Some(teacher) && studentId !in users) ==>
      e == Some(StudentNotFound)
  {
    var owner := ClassOwnerCheck(classes, classId, teacher, NoClassUpdateRight);
    if owner.Some? then owner
    else if studentId !in users then Some(StudentNotFound)
    else None
  }

  // ----- evaluations -----

  /** `Long.valueOf(map.get("studentId").toString())`, given the text of the value. */
  function StudentIdOf(e: Entry<string>): (r: Result<UserId, TeacherError>)
    ensures !e.Present? ==> r == Err(NullValue)
    ensures e.Present? ==> (r.Ok? <==> ParseLong(e.value).Some?)
    ensures e.Present? && r.Ok? ==> Some(r.value) == ParseLong(e.value)
    ensures r.Err? ==> r.error == NullValue || r.error == BadNumber
  {
    if !e.Present? then Err(NullValue)
    else match ParseLong(e.value)
      case None => Err(BadNumber)
      case Some(n) => Ok(n)
  }

  /** The checks `updateEvaluation` and `deleteEvaluation` share. */
  function EvaluationOwnerCheck(evals: map<EvaluationId, Evaluation>, id: EvaluationId, teacher: UserId,
                                denied: TeacherError): (e: Option<TeacherError>)
    ensures e.None? <==> id in evals && evals[id].teacher == teacher
    ensures id !in evals ==> e == Some(EvaluationNotFound)
    ensures id in evals && evals[id].teacher != teacher ==> e == Some(denied)
  {
    if id !in evals then Some(EvaluationNotFound)
    else if evals[id].teacher != teacher then Some(denied)
    else None
  }

  // ----- learning goals -----

  /** The request map of createGoal / updateGoal. */
  datatype GoalData = GoalData(
    studentId: Entry<string>,
    title: Entry<string>,
    description: Entry<string>,
    deadline: Entry<string>,
    status: Entry<string>,
    progress: Entry<int>)

  /** The end of the given day: `LocalDateTime.parse(d + "T23:59:59")`. */
  function EndOfDay(d: string): string {
    d + "T23:59:59"
  }

  /**
   * The due date a deadline string gives, with `parseIso` standing for
   * `LocalDateTime.parse`: none for a null or empty deadline, otherwise the
   * end of that day.
   */
  function DueDate(deadline: Option<string>, parseIso: string -> Option<Instant>): (r: Result<Option<Instant>, TeacherError>)
    ensures (deadline.None? || deadline == Some("")) ==> r == Ok(None)
    ensures (deadline.Some? && deadline.value != "") ==>
      r == (if parseIso(EndOfDay(deadline.value)).Some? then Ok(parseIso(EndOfDay(deadline.value))) else Err(BadDateTime))
  {
    if deadline.None? || deadline.value == "" then Ok(None)
    else match parseIso(EndOfDay(deadline.value))
      case None => Err(BadDateTime)
      case Some(t) => Ok(Some(t))
  }

  /** The goal `createGoal` saves: IN_PROGRESS at progress 0, set by teacher for student. */
  function NewGoal(data: GoalData, id: GoalId, teacher: UserId, student: UserId,
                   parseIso: string -> Option<Instant>): (r: Result<Goal, TeacherError>)
    ensures r.Ok? <==> DueDate(Get(data.deadline), parseIso).Ok? && data.title.Present?
    ensures r.Ok? ==>
      r.value.id == id && r.value.status == IN_PROGRESS && r.value.progress == 0 &&
      r.value.teacher == teacher && r.value.student == student
    ensures r.Ok? ==>
      r.value.title == data.title.value && r.value.description == Get(data.description) &&
      r.value.dueDate == DueDate(Get(data.deadline), parseIso).value
  {
    match DueDate(Get(data.deadline), parseIso)
    case Err(e) => Err(e)
    case Ok(due) =>
      if !data.title.Present? then Err(NullColumn)
      else Ok(Goal(id, data.title.value, Get(data.description), due, 0, IN_PROGRESS, student, teacher))
  }

  /** The checks of getGoalDetail, updateGoal and deleteGoal: the goal exists and is the caller's. */
  function GoalOwnerCheck(goals: map<GoalId, Goal>, id: GoalId, teacher: UserId, denied: TeacherError): (e: Option<TeacherError>)
    ensures e.None? <==> id in goals && goals[id].teacher == teacher
    ensures id !in goals ==> e == Some(GoalNotFound)
    ensures id in goals && goals[id].teacher != teacher ==> e == Some(denied)
  {
    if id !in goals then Some(GoalNotFound)
    else if goals[id].teacher != teacher then Some(denied)
    else None
  }

  /**
   * The goal after `updateGoal`: each field changes only when its key is
   * present; a present null or empty deadline clears the due date; an
   * unknown status is refused.
   */
  function GoalPatched(g: Goal, data: GoalData, parseIso: string -> Option<Instant>): (r: Result<Goal, TeacherError>)
    ensures r.Ok? ==>
      r.value.id == g.id && r.value.student == g.student && r.value.teacher == g.teacher
    ensures r.Ok? ==> !data.title.Null? && !data.status.Null? && !data.progress.Null?
    ensures r.Ok? ==>
      r.value.title == Patch(g.title, data.title) &&
      r.value.description == PatchNullable(g.description, data.description) &&
      r.value.progress == Patch(g.progress, data.progress)
    ensures r.Ok? ==>
      (data.status.Absent? ==> r.value.status == g.status) &&
      (data.status.Present? ==> GoalStatusName(r.value.status) == data.status.value)
    ensures r.Ok? && data.deadline.Absent? ==> r.value.dueDate == g.dueDate
    ensures (data.deadline.Null? || data.deadline == Present("")) ==> r.Ok? ==> r.value.dueDate.None?
    ensures r.Ok? && data.deadline.Present? && data.deadline.value != "" ==>
      r.value.dueDate == parseIso(EndOfDay(data.deadline.value))
    // an unknown status is refused
    ensures (DueDate(Get(data.deadline), parseIso).Ok? && data.status.Present? &&
             GoalStatusValueOf(data.status.value).None?) ==> r == Err(InvalidGoalStatus)
  {
    var due := if data.deadline.Absent? then Ok(g.dueDate) else DueDate(Get(data.deadline), parseIso);
    if due.Err? then Err(due.error)
    // valueOf(null) throws a NullPointerException, which the IllegalArgumentException handler lets through
    else if data.status.Null? then Err(NullValue)
    else if data.status.Present? && GoalStatusValueOf(data.status.value).None? then Err(InvalidGoalStatus)
    else if data.progress.Null? then Err(NullValue)
    else if data.title.Null? then Err(NullColumn)
    else
      Ok(g.(
        title := Patch(g.title, data.title),
        description := PatchNullable(g.description, data.description),
        dueDate := due.value,
        status := if data.status.Absent? then g.status else GoalStatusValueOf(data.status.value).value,
        progress := Patch(g.progress, data.progress)))
  }

  /** An update map with none of the goal's keys leaves the goal as it was. */
  lemma {:induction false} EmptyPatchKeepsGoal(g: Goal, studentId: Entry<string>, parseIso: string -> Option<Instant>)
    ensures GoalPatched(g, GoalData(studentId, Absent, Absent, Absent, Absent, Absent), parseIso) == Ok(g)
  {
  }

  /** Sending the same goal edit twice changes nothing the first one did not. */
  lemma {:induction false} GoalPatchIdempotent(g: Goal, data: GoalData, parseIso: string -> Option<Instant>)
    requires GoalPatched(g, data, parseIso).Ok?
    ensures GoalPatched(GoalPatched(g, data, parseIso).value, data, parseIso) == GoalPatched(g, data, parseIso)
  {
    var h := GoalPatched(g, data, parseIso).value;
    if data.status.Present? {
      GoalStatusValueOfName(h.status);
    }
  }

  /**
   * `addStudentToClass` appends without checking membership, so a student
   * added twice stays in the class after one `removeStudentFromClass`.
   */
  lemma {:induction false} AddedTwiceSurvivesOneRemove(s: seq<UserId>, x: UserId)
    requires x in s
    ensures x in RemoveFirst(s + [x], x)
  {
    var t := s + [x];
    var k := IndexOf(t, x);
    var i :| 0 <= i < |s| && s[i] == x;
    assert t[i] == x;
    assert x in t[..i + 1];
    var r := RemoveFirst(t, x);
    assert r == t[..k] + t[k + 1..];
    assert r[|r| - 1] == x;
  }

  /** What `getStudentGoals` lists for one goal. */
  datatype GoalView = GoalView(id: GoalId, title: string, description: Option<string>,
                               dueDate: Option<Instant>, status: string, progress: int)

  function GoalViewOf(g: Goal): (v: GoalView)
    ensures v.id == g.id && v.status == GoalStatusName(g.status) && v.progress == g.progress
    ensures v.title == g.title && v.description == g.description && v.dueDate == g.dueDate
  {
    GoalView(g.id, g.title, g.description, g.dueDate, GoalStatusName(g.status), g.progress)
  }

  /** The test of `findByTeacher(teacher)` on a goal id. */
  function SetterIs(goals: map<GoalId, Goal>, teacher: UserId): GoalId -> bool {
    id => id in goals && goals[id].teacher == teacher
  }

  /** The goals of `order` set by teacher, in the same order. */
  function SetBy(goals: map<GoalId, Goal>, order: seq<GoalId>, teacher: UserId): (r: seq<GoalId>)
    requires forall k :: 0 <= k < |order| ==> order[k] in goals
    ensures r == Filter(order, SetterIs(goals, teacher))
    ensures forall k :: 0 <= k < |r| ==> r[k] in order && goals[r[k]].teacher == teacher
    ensures forall k :: 0 <= k < |order| && goals[order[k]].teacher == teacher ==> order[k] in r
    ensures |r| <= |order|
    decreases |order|
  {
    if |order| == 0 then []
    else
      var last := order[|order| - 1];
      var kept := SetBy(goals, order[..|order| - 1], teacher);
      FilterSnoc(order[..|order| - 1], last, SetterIs(goals, teacher));
      assert order[..|order| - 1] + [last] == order;
      if goals[last].teacher == teacher then kept + [last] else kept
  }
}
