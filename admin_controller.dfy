/**
 * AdminController.java: every endpoint first checks that the caller is an
 * administrator, then reads its parameters (a class's teacher id from the
 * request body, the log filters from the query) and delegates to
 * AdminService or LogService. Any failure answers with a bad request.
 */
module AdminControllers {
  import opened Wrappers
  import opened JavaStrings
  import opened Users
  import opened Activities
  import opened Classes
  import opened Logs
  import opened AdminServices
  import opened Tokens

  datatype AdminRefusal =
    | NotLoggedIn
    | UserMissing
    | NotAdmin
    | InvalidRole
    /** `requestBody.get("teacherId").toString()` on a missing or null value: a NullPointerException */
    | MissingTeacherId
    /** `Long.valueOf` of a text that is no 64-bit number: a NumberFormatException */
    | BadTeacherId
    | Service(error: AdminError)
    | Log(logError: LogError)

  /** The body of the bad request; None where it is the text of a JVM exception. */
  function RefusalMessage(f: AdminRefusal): Option<string> {
    match f
    case NotLoggedIn => Some("未登录")
    case UserMissing => Some("用户不存在")
    case NotAdmin => Some("权限不足，需要管理员权限")
    case InvalidRole => Some("无效的用户角色")
    case MissingTeacherId => None
    case BadTeacherId => None
    case Service(e) => AdminServices.Message(e)
    case Log(e) => Some(LogErrorMessage(e))
  }

  /**
   * `validateAdmin`: an authentication must be present, its name must be a
   * known username, and that account must have the ADMIN role.
   */
  function ValidateAdmin(users: map<UserId, User>, auth: Option<Caller>): (r: Result<User, AdminRefusal>)
    requires UniqueAccounts(users)
    ensures auth.None? ==> r == Err(NotLoggedIn)
    ensures auth.Some? && !UsernameTaken(users, auth.value.username) ==> r == Err(UserMissing)
    ensures r.Ok? <==> auth.Some? && UsernameTaken(users, auth.value.username) &&
                       users[FindByUsername(users, auth.value.username).value].role == ADMIN
    ensures r.Ok? ==> r.value in users.Values && r.value.username == auth.value.username && r.value.role == ADMIN
    ensures r.Err? ==> r.error in {NotLoggedIn, UserMissing, NotAdmin}
  {
    if auth.None? then Err(NotLoggedIn)
    else
      match FindByUsername(users, auth.value.username)
      case None => Err(UserMissing)
      case Some(id) => if users[id].role != ADMIN then Err(NotAdmin) else Ok(users[id])
  }

  /**
   * The account, not the token's authority, decides: a caller whose token
   * claims ADMIN but whose account is a teacher is refused.
   */
  lemma ClaimedAdminIsChecked(users: map<UserId, User>, id: UserId)
    requires UniqueAccounts(users) && id in users && users[id].role != ADMIN
    ensures ValidateAdmin(users, Some(Caller(users[id].username, "ADMIN"))) == Err(NotAdmin)
  {
    assert UsernameTaken(users, users[id].username);
    assert FindByUsername(users, users[id].username) == Some(id);
  }

  /** `createClass`'s teacher id: the key's value must be there and read as a number. */
  function CreateTeacherId(teacherId: Entry<string>): (r: Result<UserId, AdminRefusal>)
    ensures !teacherId.Present? ==> r == Err(MissingTeacherId)
    ensures teacherId.Present? ==>
      r == (if ParseLong(teacherId.value).Some? then Ok(ParseLong(teacherId.value).value) else Err(BadTeacherId))
  {
    if !teacherId.Present? then Err(MissingTeacherId)
    else
      match ParseLong(teacherId.value)
      case None => Err(BadTeacherId)
      case Some(n) => Ok(n)
  }

  /**
   * `updateClass`'s teacher id: null unless the key is in the body; a key
   * present with a null value fails like a missing one does for createClass.
   */
  function UpdateTeacherId(teacherId: Entry<string>): (r: Result<Option<UserId>, AdminRefusal>)
    ensures teacherId.Absent? ==> r == Ok(None)
    ensures teacherId.Null? ==> r == Err(MissingTeacherId)
    ensures teacherId.Present? ==>
      r == (if ParseLong(teacherId.value).Some? then Ok(Some(ParseLong(teacherId.value).value)) else Err(BadTeacherId))
    ensures r.Ok? && r.value.Some? ==> teacherId.Present?
  {
    if teacherId.Absent? then Ok(None)
    else if teacherId.Null? then Err(MissingTeacherId)
    else
      match ParseLong(teacherId.value)
      case None => Err(BadTeacherId)
      case Some(n) => Ok(Some(n))
  }

  /** A teacher id the frontend sends as the text of a number is read back as that number. */
  lemma TeacherIdRoundTrip(id: UserId)
    requires LongMin <= id <= LongMax
    ensures CreateTeacherId(Present(LongText(id))) == Ok(id)
    ensures UpdateTeacherId(Present(LongText(id))) == Ok(Some(id))
  {
    ParseLongText(id);
  }

  /** `createClass`: the admin check, the teacher id, then the service, which logs the creation. */
  method CreateClass(svc: AdminService, auth: Option<Caller>, name: Entry<string>, description: Entry<string>,
                     teacherId: Entry<string>, ipAddress: string, now: Instant)
    returns (r: Result<ClassEntity, AdminRefusal>)
    requires svc.Valid() && UniqueAccounts(svc.users)
    modifies svc, svc.logService
    ensures svc.Valid() && svc.users == old(svc.users)
    ensures ValidateAdmin(old(svc.users), auth).Err? ==>
      r == Err(ValidateAdmin(old(svc.users), auth).error) &&
      svc.classes == old(svc.classes) && svc.logService.logs == old(svc.logService.logs)
    ensures ValidateAdmin(old(svc.users), auth).Ok? && CreateTeacherId(teacherId).Err? ==>
      r == Err(CreateTeacherId(teacherId).error) &&
      svc.classes == old(svc.classes) && svc.logService.logs == old(svc.logService.logs)
    ensures ValidateAdmin(old(svc.users), auth).Ok? && CreateTeacherId(teacherId).Ok? ==>
      var t := CreateTeacherId(teacherId).value;
      (TeacherCheck(svc.users, t).Some? ==>
         r == Err(Service(TeacherCheck(svc.users, t).value)) &&
         svc.classes == old(svc.classes) && svc.logService.logs == old(svc.logService.logs)) &&
      (TeacherCheck(svc.users, t).None? ==>
         r == Ok(ClassEntity(old(svc.nextClassId), Get(name), Get(description), Some(t), [])) &&
         svc.classes == old(svc.classes)[r.value.id := r.value] &&
         svc.logService.logs == old(svc.logService.logs)[old(svc.logService.nextLogId) :=
           NewLog(old(svc.logService.nextLogId), CLASS_CREATE,
                  CreateLogDetail(Get(name), r.value.id, svc.users[t].username),
                  Some(ValidateAdmin(old(svc.users), auth).value), ipAddress, now)])
  {
    var admin := ValidateAdmin(svc.users, auth);
    if admin.Err? {
      return Err(admin.error);
    }
    var t := CreateTeacherId(teacherId);
    if t.Err? {
      return Err(t.error);
    }
    var c := svc.CreateClass(Get(name), Get(description), t.value, ipAddress, Some(admin.value), now);
    if c.Err? {
      return Err(Service(c.error));
    }
    return Ok(c.value);
  }

  /** `updateClass`: the admin check, the optional teacher id, then the service, which logs the update. */
  method UpdateClass(svc: AdminService, auth: Option<Caller>, classId: ClassId, name: Entry<string>,
                     description: Entry<string>, teacherId: Entry<string>, ipAddress: string, now: Instant)
    returns (r: Result<ClassEntity, AdminRefusal>)
    requires svc.Valid() && UniqueAccounts(svc.users)
    modifies svc, svc.logService
    ensures svc.Valid() && svc.users == old(svc.users)
    ensures ValidateAdmin(old(svc.users), auth).Err? ==>
      r == Err(ValidateAdmin(old(svc.users), auth).error) &&
      svc.classes == old(svc.classes) && svc.logService.logs == old(svc.logService.logs)
    ensures ValidateAdmin(old(svc.users), auth).Ok? && UpdateTeacherId(teacherId).Err? ==>
      r == Err(UpdateTeacherId(teacherId).error) &&
      svc.classes == old(svc.classes) && svc.logService.logs == old(svc.logService.logs)
    ensures ValidateAdmin(old(svc.users), auth).Ok? && UpdateTeacherId(teacherId).Ok? ==>
      var t := UpdateTeacherId(teacherId).value;
      (old(svc.UpdateCheck(classId, t)).Some? ==>
         r == Err(Service(old(svc.UpdateCheck(classId, t)).value)) &&
         svc.classes == old(svc.classes) && svc.logService.logs == old(svc.logService.logs)) &&
      (old(svc.UpdateCheck(classId, t)).None? ==>
         r == Ok(old(svc.classes)[classId].(name := Get(name), description := Get(description),
                                            teacher := if t.Some? then t else old(svc.classes)[classId].teacher)) &&
         svc.classes == old(svc.classes)[classId := r.value] &&
         svc.logService.logs == old(svc.logService.logs)[old(svc.logService.nextLogId) :=
           NewLog(old(svc.logService.nextLogId), CLASS_UPDATE, UpdateLogDetail(Get(name), classId, t),
                  Some(ValidateAdmin(old(svc.users), auth).value), ipAddress, now)])
  {
    var admin := ValidateAdmin(svc.users, auth);
    if admin.Err? {
      return Err(admin.error);
    }
    var t := UpdateTeacherId(teacherId);
    if t.Err? {
      return Err(t.error);
    }
    var c := svc.UpdateClass(classId, Get(name), Get(description), t.value, ipAddress, Some(admin.value), now);
    if c.Err? {
      return Err(Service(c.error));
    }
    return Ok(c.value);
  }

  /**
   * `getLogs`' role filter: absent or empty means none; otherwise
   * `UserRole.valueOf(userRole.toUpperCase())`, refused when it names no role.
   */
  function RoleFilter(userRole: Option<string>, upper: string -> string): (r: Result<Option<Role>, AdminRefusal>)
    ensures (userRole.None? || userRole.value == "") ==> r == Ok(None)
    ensures userRole.Some? && userRole.value != "" ==>
      (r.Ok? <==> exists x: Role :: RoleName(x) == upper(userRole.value))
    ensures r.Ok? && r.value.Some? ==> userRole.Some? && RoleName(r.value.value) == upper(userRole.value)
    ensures r.Err? ==> r.error == InvalidRole
  {
    if userRole.None? || userRole.value == "" then Ok(None)
    else
      match ParseRoleIgnoringCase(upper, userRole.value)
      case None => Err(InvalidRole)
      case Some(x) => Ok(Some(x))
  }

  /** A role typed in any case that upper-cases to a role's name filters by that role. */
  lemma RoleFilterOfName(x: Role, typed: string, upper: string -> string)
    requires typed != "" && upper(typed) == RoleName(x)
    ensures RoleFilter(Some(typed), upper) == Ok(Some(x))
  {
    RoleValueOfName(x);
  }

  /**
   * `getLogs`: the admin check, the role filter, then `findLogs` with the
   * operation type passed as given; the result is the ids in repository order.
   */
  function GetLogs(logSvc: LogService, users: map<UserId, User>, auth: Option<Caller>, order: seq<LogId>,
                   operationType: Option<string>, userRole: Option<string>, startTime: Option<Instant>,
                   endTime: Option<Instant>, upper: string -> string): (r: Result<seq<LogId>, AdminRefusal>)
    reads logSvc
    requires UniqueAccounts(users)
    requires forall k :: 0 <= k < |order| ==> order[k] in logSvc.logs
    ensures ValidateAdmin(users, auth).Err? ==> r == Err(ValidateAdmin(users, auth).error)
    ensures ValidateAdmin(users, auth).Ok? && RoleFilter(userRole, upper).Err? ==> r == Err(InvalidRole)
    ensures r.Ok? ==>
      ValidateAdmin(users, auth).Ok? && RoleFilter(userRole, upper).Ok? &&
      r.value == Where(logSvc.logs, order,
                       l => Matches(l, operationType, RoleFilter(userRole, upper).value, startTime, endTime))
    ensures ValidateAdmin(users, auth).Ok? && RoleFilter(userRole, upper).Ok? ==> r.Ok?
  {
    match ValidateAdmin(users, auth)
    case Err(f) => Err(f)
    case Ok(_) =>
      match RoleFilter(userRole, upper)
      case Err(f) => Err(f)
      case Ok(role) =>
        Ok(FindLogs(logSvc.logs, order, operationType, role, startTime, endTime))
  }

  /** `getLogDetail`: the admin check, then the entry or "日志记录不存在". */
  function GetLogDetail(logSvc: LogService, users: map<UserId, User>, auth: Option<Caller>, id: LogId)
    : (r: Result<SystemLog, AdminRefusal>)
    reads logSvc
    requires UniqueAccounts(users)
    ensures ValidateAdmin(users, auth).Err? ==> r == Err(ValidateAdmin(users, auth).error)
    ensures ValidateAdmin(users, auth).Ok? ==>
      r == (if id in logSvc.logs then Ok(logSvc.logs[id]) else Err(Log(LogNotFound)))
  {
    match ValidateAdmin(users, auth)
    case Err(f) => Err(f)
    case Ok(_) =>
      match logSvc.GetLogById(id)
      case Err(e) => Err(Log(e))
      case Ok(l) => Ok(l)
  }

  /** `getClassDetail`: the admin check, then the class summary. */
  function GetClassDetail(classes: map<ClassId, ClassEntity>, users: map<UserId, User>, auth: Option<Caller>,
                          classId: ClassId): (r: Result<ClassSummary, AdminRefusal>)
    requires UniqueAccounts(users)
    ensures ValidateAdmin(users, auth).Err? ==> r == Err(ValidateAdmin(users, auth).error)
    ensures ValidateAdmin(users, auth).Ok? && classId !in classes ==> r == Err(Service(ClassNotFound))
    ensures r.Ok? ==> classId in classes && r.value.studentCount == |classes[classId].students|
  {
    match ValidateAdmin(users, auth)
    case Err(f) => Err(f)
    case Ok(_) =>
      match ClassDetail(classes, classId)
      case Err(e) => Err(Service(e))
      case Ok(s) => Ok(s)
  }
}
