/**
 * The class-membership workflow (ClassService.java): a student applies to
 * join a class, the class's teacher approves or rejects the application,
 * the applicant may withdraw it while it is pending, and the teacher edits
 * the class and removes students from it.
 */
module ClassServices {
  import opened Wrappers
  import opened Users
  import opened Activities
  import opened Classes

  datatype ClassError =
    | StudentNotFound
    | ClassNotFound
    | AlreadyMember
    | AlreadyApplied
    | ApplicationNotFound
    | NoProcessRight
    | AlreadyHandled
    | NoCancelRight
    | CancelHandled
    | NoUpdateRight
    | NoOperateRight
    | NotInClass
    /** The NullPointerException of `getTeacher().getId()` on a class without a teacher. */
    | NoTeacher

  /** The text of the exception the service throws. */
  function Message(e: ClassError): string {
    match e
    case StudentNotFound => "学生不存在"
    case ClassNotFound => "班级不存在"
    case AlreadyMember => "您已经是该班级的成员"
    case AlreadyApplied => "您已经申请过该班级，请等待审批"
    case ApplicationNotFound => "申请不存在"
    case NoProcessRight => "您无权处理此申请"
    case AlreadyHandled => "该申请已处理"
    case NoCancelRight => "您无权取消此申请"
    case CancelHandled => "申请已处理，无法取消"
    case NoUpdateRight => "您无权修改此班级"
    case NoOperateRight => "您无权操作此班级"
    case NotInClass => "该学生不在班级中"
    case NoTeacher => "Cannot invoke \"User.getId()\" because the return value of \"ClassEntity.getTeacher()\" is null"
  }

  /** `existsByStudentIdAndClassEntityId(s, c)`: an application of any status exists. */
  predicate HasApplied(apps: map<ApplicationId, ClassApplication>, s: UserId, c: ClassId) {
    exists a :: a in apps && apps[a].student == s && apps[a].classId == c
  }

  /** `c.getTeacher().getId().equals(teacherId)`, failing with `denied` for another teacher. */
  function OwnerCheck(c: ClassEntity, teacherId: UserId, denied: ClassError): (e: Option<ClassError>)
    ensures e.None? <==> c.teacher == Some(teacherId)
    ensures c.teacher.None? ==> e == Some(NoTeacher)
    ensures c.teacher.Some? && c.teacher.value != teacherId ==> e == Some(denied)
  {
    if c.teacher.None? then Some(NoTeacher)
    else if c.teacher.value != teacherId then Some(denied)
    else None
  }

  /**
   * The checks of `applyToJoinClass`, in order. A student who is already a
   * member is refused, and so is one with an application of ANY status for
   * the class: a rejected student can never apply again.
   */
  function ApplyCheck(users: map<UserId, User>, classes: map<ClassId, ClassEntity>,
                      apps: map<ApplicationId, ClassApplication>, studentId: UserId, classId: ClassId): (e: Option<ClassError>)
    ensures e.None? <==> (studentId in users && classId in classes &&
                          studentId !in classes[classId].students && !HasApplied(apps, studentId, classId))
    ensures studentId !in users ==> e == Some(StudentNotFound)
    ensures studentId in users && classId !in classes ==> e == Some(ClassNotFound)
    ensures (studentId in users && classId in classes && studentId in classes[classId].students) ==>
      e == Some(AlreadyMember)
    ensures (studentId in users && classId in classes && studentId !in classes[classId].students &&
             HasApplied(apps, studentId, classId)) ==> e == Some(AlreadyApplied)
  {
    if studentId !in users then Some(StudentNotFound)
    else if classId !in classes then Some(ClassNotFound)
    else if studentId in classes[classId].students then Some(AlreadyMember)
    else if HasApplied(apps, studentId, classId) then Some(AlreadyApplied)
    else None
  }

  /**
   * The checks of `processApplication`: the application exists, the caller
   * teaches its class, and it is still PENDING.
   */
  function ProcessCheck(classes: map<ClassId, ClassEntity>, apps: map<ApplicationId, ClassApplication>,
                        appId: ApplicationId, teacherId: UserId): (e: Option<ClassError>)
    requires forall a :: a in apps ==> apps[a].classId in classes
    ensures e.None? <==> (appId in apps && classes[apps[appId].classId].teacher == Some(teacherId) &&
                          apps[appId].status.PENDING?)
    ensures appId !in apps ==> e == Some(ApplicationNotFound)
    ensures appId in apps && classes[apps[appId].classId].teacher != Some(teacherId) ==>
      e == OwnerCheck(classes[apps[appId].classId], teacherId, NoProcessRight)
    ensures (appId in apps && classes[apps[appId].classId].teacher == Some(teacherId) &&
             !apps[appId].status.PENDING?) ==> e == Some(AlreadyHandled)
  {
    if appId !in apps then Some(ApplicationNotFound)
    else
      var owner := OwnerCheck(classes[apps[appId].classId], teacherId, NoProcessRight);
      if owner.Some? then owner
      else if !apps[appId].status.PENDING? then Some(AlreadyHandled)
      else None
  }

  /**
   * The application after being handled at time now: the new status, the
   * handling time, and the reason only when it is a rejection.
   */
  function Processed(app: ClassApplication, newStatus: ApplicationStatus, reason: Option<string>,
                     now: Instant): (q: ClassApplication)
    ensures q.status == newStatus && q.handledAt == Some(now)
    ensures q.rejectReason == (if newStatus == REJECTED then reason else app.rejectReason)
    ensures q.id == app.id && q.student == app.student && q.classId == app.classId && q.message == app.message
  {
    var q := app.(status := newStatus, handledAt := Some(now));
    if newStatus == REJECTED then q.(rejectReason := reason) else q
  }

  /** The classes after handling app: an approval appends its student to the roster, unchecked. */
  function Admitted(classes: map<ClassId, ClassEntity>, app: ClassApplication,
                    newStatus: ApplicationStatus): (m: map<ClassId, ClassEntity>)
    requires app.classId in classes
    ensures m.Keys == classes.Keys
    ensures newStatus != APPROVED ==> m == classes
    ensures newStatus == APPROVED ==>
      m[app.classId].students == classes[app.classId].students + [app.student] &&
      m[app.classId] == classes[app.classId].(students := m[app.classId].students)
    ensures forall c :: c in classes && c != app.classId ==> m[c] == classes[c]
  {
    if newStatus == APPROVED then
      var c := classes[app.classId];
      classes[app.classId := c.(students := c.students + [app.student])]
    else classes
  }

  /** The checks of `cancelApplication`: only the applicant, and only while PENDING. */
  function CancelCheck(apps: map<ApplicationId, ClassApplication>, appId: ApplicationId,
                       studentId: UserId): (e: Option<ClassError>)
    ensures e.None? <==> appId in apps && apps[appId].student == studentId && apps[appId].status.PENDING?
    ensures appId !in apps ==> e == Some(ApplicationNotFound)
    ensures appId in apps && apps[appId].student != studentId ==> e == Some(NoCancelRight)
    ensures (appId in apps && apps[appId].student == studentId && !apps[appId].status.PENDING?) ==>
      e == Some(CancelHandled)
  {
    if appId !in apps then Some(ApplicationNotFound)
    else if apps[appId].student != studentId then Some(NoCancelRight)
    else if !apps[appId].status.PENDING? then Some(CancelHandled)
    else None
  }

  /** The checks of `updateClass`: the class exists and the caller teaches it. */
  function UpdateCheck(classes: map<ClassId, ClassEntity>, classId: ClassId, teacherId: UserId): (e: Option<ClassError>)
    ensures e.None? <==> classId in classes && classes[classId].teacher == Some(teacherId)
    ensures classId !in classes ==> e == Some(ClassNotFound)
    ensures classId in classes ==> e == OwnerCheck(classes[classId], teacherId, NoUpdateRight)
  {
    if classId !in classes then Some(ClassNotFound)
    else OwnerCheck(classes[classId], teacherId, NoUpdateRight)
  }

  /** The checks of `removeStudentFromClass`: class, ownership, student, membership. */
  function RemoveCheck(users: map<UserId, User>, classes: map<ClassId, ClassEntity>, classId: ClassId,
                       studentId: UserId, teacherId: UserId): (e: Option<ClassError>)
    ensures e.None? <==> (classId in classes && classes[classId].teacher == Some(teacherId) &&
                          studentId in users && studentId in classes[classId].students)
    ensures classId !in classes ==> e == Some(ClassNotFound)
    ensures classId in classes && classes[classId].teacher != Some(teacherId) ==>
      e == OwnerCheck(classes[classId], teacherId, NoOperateRight)
    ensures (classId in classes && classes[classId].teacher == Some(teacherId) && studentId !in users) ==>
      e == Some(StudentNotFound)
    ensures (classId in classes && classes[classId].teacher == Some(teacherId) && studentId in users &&
             studentId !in classes[classId].students) ==> e == Some(NotInClass)
  {
    if classId !in classes then Some(ClassNotFound)
    else
      var owner := OwnerCheck(classes[classId], teacherId, NoOperateRight);
      if owner.Some? then owner
      else if studentId !in users then Some(StudentNotFound)
      else if studentId !in classes[classId].students then Some(NotInClass)
      else None
  }

  /**
   * What ClassService's own operations keep true: no roster lists a student
   * twice, each (student, class) pair has at most one application, and a
   * pending applicant is not yet a member. It is not an invariant of the
   * whole system: TeacherService and UserService append to the same rosters
   * and store applications without these checks.
   */
  ghost predicate Rosters(classes: map<ClassId, ClassEntity>, apps: map<ApplicationId, ClassApplication>) {
    (forall c :: c in classes ==> NoDuplicates(classes[c].students)) &&
    (forall a, b :: a in apps && b in apps && a != b ==>
       apps[a].student != apps[b].student || apps[a].classId != apps[b].classId) &&
    (forall a :: a in apps && apps[a].status.PENDING? && apps[a].classId in classes ==>
       apps[a].student !in classes[apps[a].classId].students)
  }

  /** A new PENDING application that passed ApplyCheck keeps the rosters consistent. */
  lemma {:induction false} RostersAfterApply(classes: map<ClassId, ClassEntity>,
                                             apps: map<ApplicationId, ClassApplication>,
                                             app: ClassApplication)
    requires Rosters(classes, apps) && app.id !in apps && app.status.PENDING?
    requires app.classId in classes && app.student !in classes[app.classId].students
    requires !HasApplied(apps, app.student, app.classId)
    ensures Rosters(classes, apps[app.id := app])
  {
    var m := apps[app.id := app];
    forall a, b | a in m && b in m && a != b
      ensures m[a].student != m[b].student || m[a].classId != m[b].classId
    {
      if a == app.id {
        assert b in apps;
      } else if b == app.id {
        assert a in apps;
      }
    }
  }

  /**
   * Handling a pending application keeps the rosters consistent: an
   * approval appends a student who, being a pending applicant, was not a
   * member, and who has no other pending application for that class.
   */
  lemma {:induction false} RostersAfterProcess(classes: map<ClassId, ClassEntity>,
                                               apps: map<ApplicationId, ClassApplication>,
                                               appId: ApplicationId, newStatus: ApplicationStatus,
                                               reason: Option<string>, now: Instant)
    requires Rosters(classes, apps) && appId in apps && apps[appId].status.PENDING?
    requires apps[appId].classId in classes
    ensures Rosters(Admitted(classes, apps[appId], newStatus),
                    apps[appId := Processed(apps[appId], newStatus, reason, now)])
  {
    var app := apps[appId];
    var cs := Admitted(classes, app, newStatus);
    var m := apps[appId := Processed(app, newStatus, reason, now)];
    if newStatus == APPROVED {
      AddToRoster(classes[app.classId].students, app.student);
      forall a | a in m && m[a].status.PENDING? && m[a].classId in cs
        ensures m[a].student !in cs[m[a].classId].students
      {
        assert a != appId && a in apps;
        if m[a].classId == app.classId {
          assert m[a].student != app.student;
        }
      }
    }
  }

  /** Removing a member keeps the rosters consistent. */
  lemma {:induction false} RostersAfterRemove(classes: map<ClassId, ClassEntity>,
                                              apps: map<ApplicationId, ClassApplication>,
                                              classId: ClassId, studentId: UserId)
    requires Rosters(classes, apps) && classId in classes
    ensures Rosters(classes[classId := classes[classId].(students := RemoveFirst(classes[classId].students, studentId))],
                    apps)
  {
    RemoveFromRoster(classes[classId].students, studentId);
  }

  /**
   * An application whose handling set a final status can never be handled
   * again, by its teacher or anyone else.
   */
  lemma {:induction false} HandledOnce(classes: map<ClassId, ClassEntity>,
                                       apps: map<ApplicationId, ClassApplication>,
                                       appId: ApplicationId, newStatus: ApplicationStatus,
                                       reason: Option<string>, now: Instant, teacherId: UserId)
    requires forall a :: a in apps ==> apps[a].classId in classes
    requires appId in apps && newStatus != PENDING
    ensures var cs := Admitted(classes, apps[appId], newStatus);
            var m := apps[appId := Processed(apps[appId], newStatus, reason, now)];
            (forall a :: a in m ==> m[a].classId in cs) && ProcessCheck(cs, m, appId, teacherId).Some?
  {
    var cs := Admitted(classes, apps[appId], newStatus);
    var m := apps[appId := Processed(apps[appId], newStatus, reason, now)];
    assert forall a :: a in m ==> m[a].classId in cs;
    assert !m[appId].status.PENDING?;
  }

  /** The class-membership service over in-memory repositories. */
  class ClassService {
    /** userRepository, by id */
    var users: map<UserId, User>
    /** classRepository, by id */
    var classes: map<ClassId, ClassEntity>
    /** classApplicationRepository, by id */
    var applications: map<ApplicationId, ClassApplication>
    /** the next generated class id and application id */
    var nextClassId: ClassId
    var nextApplicationId: ApplicationId

    ghost predicate Valid()
      reads this
    {
      (forall c :: c in classes ==> classes[c].id == c && c < nextClassId) &&
      (forall a :: a in applications ==>
         applications[a].id == a && a < nextApplicationId &&
         applications[a].classId in classes && applications[a].student in users)
    }

    constructor (users: map<UserId, User>, classes: map<ClassId, ClassEntity>, nextClassId: ClassId)
      requires forall c :: c in classes ==> classes[c].id == c && c < nextClassId
      ensures Valid()
      ensures this.users == users && this.classes == classes && applications == map[]
    {
      this.users := users;
      this.classes := classes;
      applications := map[];
      this.nextClassId := nextClassId;
      nextApplicationId := 1;
    }

    /** `createClass`: a new, empty class taught by teacher. */
    method CreateClass(name: Option<string>, description: Option<string>, teacher: UserId) returns (c: ClassEntity)
      requires Valid()
      modifies this
      ensures Valid()
      ensures c == ClassEntity(old(nextClassId), name, description, Some(teacher), [])
      ensures classes == old(classes)[c.id := c]
      ensures users == old(users) && applications == old(applications)
    {
      c := ClassEntity(nextClassId, name, description, Some(teacher), []);
      classes := classes[c.id := c];
      nextClassId := nextClassId + 1;
    }

    /** `applyToJoinClass`: stores one new PENDING application carrying the message. */
    method ApplyToJoinClass(studentId: UserId, classId: ClassId, message: Option<string>)
      returns (r: Result<ClassApplication, ClassError>)
      requires Valid()
      modifies this
      ensures Valid()
      ensures users == old(users) && classes == old(classes)
      ensures ApplyCheck(old(users), old(classes), old(applications), studentId, classId).Some? ==>
        r == Err(ApplyCheck(old(users), old(classes), old(applications), studentId, classId).value) &&
        applications == old(applications)
      ensures ApplyCheck(old(users), old(classes), old(applications), studentId, classId).None? ==>
        r == Ok(ClassApplication(old(nextApplicationId), studentId, classId, PENDING, message, None, None)) &&
        applications == old(applications)[r.value.id := r.value]
    {
      var e := ApplyCheck(users, classes, applications, studentId, classId);
      if e.Some? {
        return Err(e.value);
      }
      var app := ClassApplication(nextApplicationId, studentId, classId, PENDING, message, None, None);
      applications := applications[app.id := app];
      nextApplicationId := nextApplicationId + 1;
      return Ok(app);
    }

    /** `processApplication`: a teacher approves or rejects a pending application. */
    method ProcessApplication(appId: ApplicationId, newStatus: ApplicationStatus, reason: Option<string>,
                              teacherId: UserId, now: Instant)
      returns (r: Result<ClassApplication, ClassError>)
      requires Valid()
      modifies this
      ensures Valid()
      ensures users == old(users)
      ensures ProcessCheck(old(classes), old(applications), appId, teacherId).Some? ==>
        r == Err(ProcessCheck(old(classes), old(applications), appId, teacherId).value) &&
        classes == old(classes) && applications == old(applications)
      ensures ProcessCheck(old(classes), old(applications), appId, teacherId).None? ==>
        var q := Processed(old(applications)[appId], newStatus, reason, now);
        r == Ok(q) && applications == old(applications)[appId := q] &&
        classes == Admitted(old(classes), old(applications)[appId], newStatus)
    {
      var e := ProcessCheck(classes, applications, appId, teacherId);
      if e.Some? {
        return Err(e.value);
      }
      var app := applications[appId];
      var q := Processed(app, newStatus, reason, now);
      classes := Admitted(classes, app, newStatus);
      applications := applications[appId := q];
      return Ok(q);
    }

    /** `cancelApplication`: the applicant withdraws a pending application, which is deleted. */
    method CancelApplication(appId: ApplicationId, studentId: UserId) returns (r: Option<ClassError>)
      requires Valid()
      modifies this
      ensures Valid()
      ensures users == old(users) && classes == old(classes)
      ensures r == CancelCheck(old(applications), appId, studentId)
      ensures r.Some? ==> applications == old(applications)
      ensures r.None? ==> applications == old(applications) - {appId}
    {
      r := CancelCheck(applications, appId, studentId);
      if r.None? {
        applications := applications - {appId};
      }
    }

    /** `updateClass`: the teacher replaces the name and the description, nothing else. */
    method UpdateClass(classId: ClassId, name: Option<string>, description: Option<string>, teacherId: UserId)
      returns (r: Result<ClassEntity, ClassError>)
      requires Valid()
      modifies this
      ensures Valid()
      ensures users == old(users) && applications == old(applications)
      ensures UpdateCheck(old(classes), classId, teacherId).Some? ==>
        r == Err(UpdateCheck(old(classes), classId, teacherId).value) && classes == old(classes)
      ensures UpdateCheck(old(classes), classId, teacherId).None? ==>
        r == Ok(old(classes)[classId].(name := name, description := description)) &&
        classes == old(classes)[classId := r.value]
    {
      var e := UpdateCheck(classes, classId, teacherId);
      if e.Some? {
        return Err(e.value);
      }
      var c := classes[classId].(name := name, description := description);
      classes := classes[classId := c];
      return Ok(c);
    }

    /** `removeStudentFromClass`: the teacher takes a member off the roster. */
    method RemoveStudentFromClass(classId: ClassId, studentId: UserId, teacherId: UserId) returns (r: Option<ClassError>)
      requires Valid()
      modifies this
      ensures Valid()
      ensures users == old(users) && applications == old(applications)
      ensures r == RemoveCheck(old(users), old(classes), classId, studentId, teacherId)
      ensures r.Some? ==> classes == old(classes)
      ensures r.None? ==>
        classes == old(classes)[classId := old(classes)[classId].(
          students := RemoveFirst(old(classes)[classId].students, studentId))]
      // one copy of the student goes; on a roster listing them once, they are gone and every other member stays
      ensures r.None? ==>
        |classes[classId].students| == |old(classes)[classId].students| - 1 &&
        multiset(classes[classId].students) == multiset(old(classes)[classId].students) - multiset{studentId}
      ensures r.None? && NoDuplicates(old(classes)[classId].students) ==>
        studentId !in classes[classId].students &&
        forall y :: y != studentId ==> (y in classes[classId].students <==> y in old(classes)[classId].students)
    {
      r := RemoveCheck(users, classes, classId, studentId, teacherId);
      if r.None? {
        if NoDuplicates(classes[classId].students) {
          RemoveFromRoster(classes[classId].students, studentId);
        }
        var c := classes[classId];
        classes := classes[classId := c.(students := RemoveFirst(c.students, studentId))];
      }
    }
  }
}
