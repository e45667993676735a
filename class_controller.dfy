/**
 * ClassController.java: every endpoint reads the caller from the token
 * (strip "Bearer ", at least three dot-separated segments, username and role
 * claim), demands an exact role string, looks the user up, and delegates to
 * ClassService. processApplication handles one application and
 * processBatchApplications a list of them, one result per id.
 */
module ClassControllers {
  import opened Wrappers
  import opened JavaStrings
  import opened Users
  import opened Activities
  import opened Classes
  import opened ClassServices
  import opened Tokens

  /** Why a ClassController call answers with a bad request. */
  datatype Refusal =
    | InvalidToken
    | WrongRole(denied: string)
    | UnknownUser
    | EmptyIds
    | BadAction
    /** `ApplicationStatus.valueOf(null)`: a NullPointerException */
    | NullStatus
    /** `ApplicationStatus.valueOf(s)` for a name that is no constant: an IllegalArgumentException */
    | BadStatus
    | Service(error: ClassError)

  /** The body of the bad request; None where it is the text of a JVM exception. */
  function RefusalMessage(f: Refusal): Option<string> {
    match f
    case InvalidToken => Some("无效的认证信息")
    case WrongRole(d) => Some(d)
    case UnknownUser => Some("用户不存在")
    case EmptyIds => Some("申请ID列表不能为空")
    case BadAction => Some("操作类型无效，必须是 'approve' 或 'reject'")
    case NullStatus => None
    case BadStatus => None
    case Service(e) => Some(ClassServices.Message(e))
  }

  /** The endpoints and, for each, the role string it demands and the refusal text otherwise. */
  datatype Endpoint =
    | CreateClassEndpoint | TeacherClasses | StudentClasses | AvailableClasses | ApplyToJoin
    | StudentApplications | TeacherApplications | ProcessOneEndpoint | CancelEndpoint
    | UpdateClassEndpoint | RemoveStudentEndpoint | ProcessBatchEndpoint

  function RequiredRole(ep: Endpoint): (r: string)
    ensures r == "TEACHER" || r == "STUDENT"
  {
    match ep
    case StudentClasses => "STUDENT"
    case AvailableClasses => "STUDENT"
    case ApplyToJoin => "STUDENT"
    case StudentApplications => "STUDENT"
    case CancelEndpoint => "STUDENT"
    case _ => "TEACHER"
  }

  function Denial(ep: Endpoint): string {
    match ep
    case CreateClassEndpoint => "只有教师可以创建班级"
    case TeacherClasses => "只有教师可以访问此接口"
    case StudentClasses => "只有学生可以访问此接口"
    case AvailableClasses => "只有学生可以访问此接口"
    case ApplyToJoin => "只有学生可以申请加入班级"
    case StudentApplications => "只有学生可以访问此接口"
    case TeacherApplications => "只有教师可以访问此接口"
    case ProcessOneEndpoint => "只有教师可以处理申请"
    case CancelEndpoint => "只有学生可以取消申请"
    case UpdateClassEndpoint => "只有教师可以更新班级"
    case RemoveStudentEndpoint => "只有教师可以移除学生"
    case ProcessBatchEndpoint => "只有教师可以处理申请"
  }

  /**
   * The guard every endpoint starts with: a readable token, the exact role
   * string the endpoint demands, and an account with the token's username.
   */
  function Authorize(users: map<UserId, User>, token: string, ep: Endpoint): (r: Result<User, Refusal>)
    requires UniqueAccounts(users)
    ensures ClassTokenCaller(token).None? ==> r == Err(InvalidToken)
    ensures ClassTokenCaller(token).Some? && ClassTokenCaller(token).value.role != RequiredRole(ep) ==>
      r == Err(WrongRole(Denial(ep)))
    ensures r.Ok? <==>
      ClassTokenCaller(token).Some? && ClassTokenCaller(token).value.role == RequiredRole(ep) &&
      UsernameTaken(users, ClassTokenCaller(token).value.username)
    ensures r.Ok? ==> r.value in users.Values && r.value.username == ClassTokenCaller(token).value.username
    ensures r.Err? ==> r.error in {InvalidToken, WrongRole(Denial(ep)), UnknownUser}
  {
    match ClassTokenCaller(token)
    case None => Err(InvalidToken)
    case Some(c) =>
      if c.role != RequiredRole(ep) then Err(WrongRole(Denial(ep)))
      else
        match FindByUsername(users, c.username)
        case None => Err(UnknownUser)
        case Some(id) => Ok(users[id])
  }

  /**
   * The guard trusts the token's role claim and not the account's stored
   * role: a token naming a student with the claim TEACHER opens every
   * teacher endpoint for that student.
   */
  lemma RoleClaimIsTrusted(users: map<UserId, User>, id: UserId, uuid: string)
    requires UniqueAccounts(users) && id in users && '.' !in users[id].username && UuidText(uuid)
    ensures Authorize(users, BearerPrefix + LoginToken(users[id].username, TEACHER, uuid), ProcessOneEndpoint) ==
            Ok(users[id])
  {
    LoginTokenPassesClassController(users[id].username, TEACHER, uuid);
    TeacherClaimAuthorizes(users, id, BearerPrefix + LoginToken(users[id].username, TEACHER, uuid));
  }

  /** A header whose caller claims TEACHER for an existing username passes `processApplication`'s guard. */
  lemma TeacherClaimAuthorizes(users: map<UserId, User>, id: UserId, header: string)
    requires UniqueAccounts(users) && id in users
    requires ClassTokenCaller(header) == Some(Caller(users[id].username, RoleName(TEACHER)))
    ensures Authorize(users, header, ProcessOneEndpoint) == Ok(users[id])
  {
    assert UsernameTaken(users, users[id].username);
  }

  /** `ApplicationStatus.valueOf((String) body.get("status"))` */
  function StatusOf(status: Entry<string>): (r: Result<ApplicationStatus, Refusal>)
    ensures !status.Present? ==> r == Err(NullStatus)
    ensures status.Present? ==> (r.Ok? <==> ApplicationStatusValueOf(status.value).Some?)
    ensures r.Ok? ==> ApplicationStatusName(r.value) == status.value
    ensures r.Err? ==> r.error in {NullStatus, BadStatus}
  {
    if !status.Present? then Err(NullStatus)
    else
      match ApplicationStatusValueOf(status.value)
      case None => Err(BadStatus)
      case Some(s) => Ok(s)
  }

  /**
   * The reason handed to the service: `""` unless the new status is
   * REJECTED, and then `body.getOrDefault("rejectReason", "")`, which is
   * null for a key present with a null value.
   */
  function RejectReason(newStatus: ApplicationStatus, reason: Entry<string>): (r: Option<string>)
    ensures newStatus != REJECTED ==> r == Some("")
    ensures newStatus == REJECTED && reason.Absent? ==> r == Some("")
    ensures newStatus == REJECTED && !reason.Absent? ==> r == Get(reason)
  {
    if newStatus != REJECTED then Some("")
    else if reason.Absent? then Some("")
    else Get(reason)
  }

  /** The two repositories a processing step reads and writes. */
  datatype Board = Board(classes: map<ClassId, ClassEntity>, apps: map<ApplicationId, ClassApplication>)

  /** Applications are stored under their ids and refer to stored classes, as the keys guarantee. */
  predicate Linked(b: Board) {
    forall a :: a in b.apps ==> b.apps[a].id == a && b.apps[a].classId in b.classes
  }

  /** One `classService.processApplication` call on the board: an error leaves it as it was. */
  function ProcessOne(b: Board, appId: ApplicationId, newStatus: ApplicationStatus, reason: Option<string>,
                      teacherId: UserId, now: Instant): (r: (Board, Result<ClassApplication, ClassError>))
    requires Linked(b)
    ensures Linked(r.0)
    ensures r.1.Ok? <==> ProcessCheck(b.classes, b.apps, appId, teacherId).None?
    ensures r.1.Err? ==> r.0 == b && r.1.error == ProcessCheck(b.classes, b.apps, appId, teacherId).value
    ensures r.1.Ok? ==> r.1.value.id == appId && r.1.value.status == newStatus && r.0.apps.Keys == b.apps.Keys
  {
    match ProcessCheck(b.classes, b.apps, appId, teacherId)
    case Some(e) => (b, Err(e))
    case None =>
      var q := Processed(b.apps[appId], newStatus, reason, now);
      (Board(Admitted(b.classes, b.apps[appId], newStatus), b.apps[appId := q]), Ok(q))
  }

  /** One entry of the `results` list: the application's id and either its new status or the error. */
  datatype BatchItem = Succeeded(id: ApplicationId, status: ApplicationStatus) | FailedItem(id: ApplicationId, error: ClassError)

  function ItemOf(appId: ApplicationId, r: Result<ClassApplication, ClassError>): (item: BatchItem)
    ensures item.id == appId
  {
    match r
    case Ok(q) => Succeeded(appId, q.status)
    case Err(e) => FailedItem(appId, e)
  }

  /**
   * The loop of processBatchApplications: each id is processed on the board
   * the previous ones left, and a failure does not stop the ones after it.
   */
  function Batch(b: Board, ids: seq<ApplicationId>, newStatus: ApplicationStatus, reason: Option<string>,
                 teacherId: UserId, now: Instant): (r: (Board, seq<BatchItem>))
    requires Linked(b)
    ensures Linked(r.0)
    ensures |r.1| == |ids|
    ensures forall k :: 0 <= k < |ids| ==> r.1[k].id == ids[k]
    decreases |ids|
  {
    if |ids| == 0 then (b, [])
    else
      var prev := Batch(b, ids[..|ids| - 1], newStatus, reason, teacherId, now);
      var step := ProcessOne(prev.0, ids[|ids| - 1], newStatus, reason, teacherId, now);
      (step.0, prev.1 + [ItemOf(ids[|ids| - 1], step.1)])
  }

  /** A batch over u + v is the batch over u followed by the batch over v. */
  lemma {:induction false} BatchAppend(b: Board, u: seq<ApplicationId>, v: seq<ApplicationId>,
                                       newStatus: ApplicationStatus, reason: Option<string>,
                                       teacherId: UserId, now: Instant)
    requires Linked(b)
    ensures var first := Batch(b, u, newStatus, reason, teacherId, now);
            var second := Batch(first.0, v, newStatus, reason, teacherId, now);
            Batch(b, u + v, newStatus, reason, teacherId, now) == (second.0, first.1 + second.1)
    decreases |v|
  {
    if |v| == 0 {
      assert u + v == u;
      var first := Batch(b, u, newStatus, reason, teacherId, now);
      assert Batch(first.0, v, newStatus, reason, teacherId, now) == (first.0, []);
      assert first.1 + [] == first.1;
    } else {
      var w := v[..|v| - 1];
      var last := v[|v| - 1];
      assert (u + v)[..|u + v| - 1] == u + w;
      assert (u + v)[|u + v| - 1] == last;
      BatchAppend(b, u, w, newStatus, reason, teacherId, now);
      var first := Batch(b, u, newStatus, reason, teacherId, now);
      var mid := Batch(first.0, w, newStatus, reason, teacherId, now);
      var step := ProcessOne(mid.0, last, newStatus, reason, teacherId, now);
      assert Batch(first.0, v, newStatus, reason, teacherId, now) == (step.0, mid.1 + [ItemOf(last, step.1)]);
      assert Batch(b, u + w, newStatus, reason, teacherId, now) == (mid.0, first.1 + mid.1);
      assert Batch(b, u + v, newStatus, reason, teacherId, now) == (step.0, first.1 + mid.1 + [ItemOf(last, step.1)]);
      assert first.1 + mid.1 + [ItemOf(last, step.1)] == first.1 + (mid.1 + [ItemOf(last, step.1)]);
    }
  }

  /** Processing other applications, or failing on this one, leaves a handled application handled. */
  lemma {:induction false} BatchKeepsHandled(b: Board, ids: seq<ApplicationId>, x: ApplicationId,
                                             newStatus: ApplicationStatus, reason: Option<string>,
                                             teacherId: UserId, now: Instant)
    requires Linked(b) && x in b.apps && !b.apps[x].status.PENDING?
    ensures var out := Batch(b, ids, newStatus, reason, teacherId, now).0;
            x in out.apps && !out.apps[x].status.PENDING?
    decreases |ids|
  {
    if |ids| > 0 {
      BatchKeepsHandled(b, ids[..|ids| - 1], x, newStatus, reason, teacherId, now);
    }
  }

  /**
   * Within one batch that approves or rejects, an application is handled at
   * most once: if it succeeds at position i, a repetition of its id at a
   * later position j fails.
   */
  lemma BatchHandlesOnce(b: Board, ids: seq<ApplicationId>, newStatus: ApplicationStatus, reason: Option<string>,
                         teacherId: UserId, now: Instant, i: nat, j: nat)
    requires Linked(b) && newStatus != PENDING
    requires i < j < |ids| && ids[i] == ids[j]
    requires Batch(b, ids, newStatus, reason, teacherId, now).1[i].Succeeded?
    ensures Batch(b, ids, newStatus, reason, teacherId, now).1[j].FailedItem?
  {
    var x := ids[i];
    var u := ids[..i];
    var mid := ids[i + 1..j];
    var rest := ids[j + 1..];
    assert ids == u + [x] + mid + [x] + rest;
    var b1 := Batch(b, u, newStatus, reason, teacherId, now);
    var s1 := Batch(b1.0, [x], newStatus, reason, teacherId, now);
    var s2 := Batch(s1.0, mid, newStatus, reason, teacherId, now);
    var s3 := Batch(s2.0, [x], newStatus, reason, teacherId, now);
    var s4 := Batch(s3.0, rest, newStatus, reason, teacherId, now);
    BatchAppend(b, u, [x], newStatus, reason, teacherId, now);
    BatchAppend(b, u + [x], mid, newStatus, reason, teacherId, now);
    BatchAppend(b, u + [x] + mid, [x], newStatus, reason, teacherId, now);
    BatchAppend(b, u + [x] + mid + [x], rest, newStatus, reason, teacherId, now);
    var all := Batch(b, ids, newStatus, reason, teacherId, now);
    assert all.1 == b1.1 + s1.1 + s2.1 + s3.1 + s4.1;
    assert all.1[i] == s1.1[0];
    assert all.1[j] == s3.1[0];
    assert [x][..0] == [];
    assert Batch(b1.0, [][..0] + [x], newStatus, reason, teacherId, now) == s1;
    var one := ProcessOne(b1.0, x, newStatus, reason, teacherId, now);
    assert s1.0 == one.0 && s1.1 == [ItemOf(x, one.1)];
    assert one.1.Ok?;
    assert x in s1.0.apps && !s1.0.apps[x].status.PENDING?;
    BatchKeepsHandled(s1.0, mid, x, newStatus, reason, teacherId, now);
    var two := ProcessOne(s2.0, x, newStatus, reason, teacherId, now);
    assert s3.1 == [ItemOf(x, two.1)];
    assert ProcessCheck(s2.0.classes, s2.0.apps, x, teacherId).Some?;
  }

  /** `processApplication`'s checks before the service is called: the guard, then the status. */
  function ProcessRequestCheck(users: map<UserId, User>, token: string, status: Entry<string>)
    : (r: Result<(User, ApplicationStatus), Refusal>)
    requires UniqueAccounts(users)
    ensures Authorize(users, token, ProcessOneEndpoint).Err? ==> r == Err(Authorize(users, token, ProcessOneEndpoint).error)
    ensures Authorize(users, token, ProcessOneEndpoint).Ok? ==>
      match StatusOf(status)
      case Err(f) => r == Err(f)
      case Ok(s) => r == Ok((Authorize(users, token, ProcessOneEndpoint).value, s))
  {
    match Authorize(users, token, ProcessOneEndpoint)
    case Err(f) => Err(f)
    case Ok(u) =>
      match StatusOf(status)
      case Err(f) => Err(f)
      case Ok(s) => Ok((u, s))
  }

  /**
   * `processApplication`: the caller's checks, then one service call whose
   * error, if any, becomes the bad request's body.
   */
  method ProcessApplication(svc: ClassService, token: string, appId: ApplicationId,
                            status: Entry<string>, reason: Entry<string>, now: Instant)
    returns (r: Result<ClassApplication, Refusal>)
    requires svc.Valid() && UniqueAccounts(svc.users)
    modifies svc
    ensures svc.Valid() && svc.users == old(svc.users)
    ensures ProcessRequestCheck(old(svc.users), token, status).Err? ==>
      r == Err(ProcessRequestCheck(old(svc.users), token, status).error) &&
      svc.classes == old(svc.classes) && svc.applications == old(svc.applications)
    ensures ProcessRequestCheck(old(svc.users), token, status).Ok? ==>
      var ok := ProcessRequestCheck(old(svc.users), token, status).value;
      var step := ProcessOne(Board(old(svc.classes), old(svc.applications)), appId, ok.1,
                             RejectReason(ok.1, reason), ok.0.id, now);
      Board(svc.classes, svc.applications) == step.0 &&
      r == (if step.1.Ok? then Ok(step.1.value) else Err(Service(step.1.error)))
  {
    var check := ProcessRequestCheck(svc.users, token, status);
    if check.Err? {
      return Err(check.error);
    }
    var u := check.value.0;
    var s := check.value.1;
    var q := svc.ProcessApplication(appId, s, RejectReason(s, reason), u.id, now);
    if q.Ok? {
      r := Ok(q.value);
    } else {
      r := Err(Service(q.error));
    }
  }

  /** `processBatchApplications`' checks: the guard, an id list that is given and not empty, the action. */
  function BatchCheck(users: map<UserId, User>, token: string, ids: Option<seq<ApplicationId>>,
                      action: Option<string>): (r: Result<(User, ApplicationStatus), Refusal>)
    requires UniqueAccounts(users)
    ensures Authorize(users, token, ProcessBatchEndpoint).Err? ==>
      r == Err(Authorize(users, token, ProcessBatchEndpoint).error)
    ensures Authorize(users, token, ProcessBatchEndpoint).Ok? && (ids.None? || |ids.value| == 0) ==> r == Err(EmptyIds)
    ensures r.Ok? <==>
      Authorize(users, token, ProcessBatchEndpoint).Ok? && ids.Some? && |ids.value| > 0 &&
      action.Some? && (action.value == "approve" || action.value == "reject")
    ensures r.Ok? ==>
      r.value.0 == Authorize(users, token, ProcessBatchEndpoint).value &&
      r.value.1 == (if action.value == "approve" then APPROVED else REJECTED)
    ensures r.Err? && Authorize(users, token, ProcessBatchEndpoint).Ok? ==> r.error in {EmptyIds, BadAction}
  {
    match Authorize(users, token, ProcessBatchEndpoint)
    case Err(f) => Err(f)
    case Ok(u) =>
      if ids.None? || |ids.value| == 0 then Err(EmptyIds)
      else if action.None? || (action.value != "approve" && action.value != "reject") then Err(BadAction)
      else Ok((u, if action.value == "approve" then APPROVED else REJECTED))
  }

  /** One more id of the list: the batch so far, then that id on the board it left. */
  lemma BatchStep(b: Board, ids: seq<ApplicationId>, i: nat, newStatus: ApplicationStatus, reason: Option<string>,
                  teacherId: UserId, now: Instant)
    requires Linked(b) && i < |ids|
    ensures var prev := Batch(b, ids[..i], newStatus, reason, teacherId, now);
      var step := ProcessOne(prev.0, ids[i], newStatus, reason, teacherId, now);
      Batch(b, ids[..i + 1], newStatus, reason, teacherId, now) == (step.0, prev.1 + [ItemOf(ids[i], step.1)])
  {
    assert ids[..i + 1][..i] == ids[..i];
  }

  /** The response of a batch: one result per id and their number. */
  datatype BatchReport = BatchReport(results: seq<BatchItem>, totalProcessed: nat)

  /** `processBatchApplications` */
  method ProcessBatchApplications(svc: ClassService, token: string, ids: Option<seq<ApplicationId>>,
                                  action: Option<string>, reason: Entry<string>, now: Instant)
    returns (r: Result<BatchReport, Refusal>)
    requires svc.Valid() && UniqueAccounts(svc.users)
    modifies svc
    ensures svc.Valid() && svc.users == old(svc.users)
    ensures BatchCheck(old(svc.users), token, ids, action).Err? ==>
      r == Err(BatchCheck(old(svc.users), token, ids, action).error) &&
      svc.classes == old(svc.classes) && svc.applications == old(svc.applications)
    ensures BatchCheck(old(svc.users), token, ids, action).Ok? ==>
      var ok := BatchCheck(old(svc.users), token, ids, action).value;
      var out := Batch(Board(old(svc.classes), old(svc.applications)), ids.value, ok.1,
                       RejectReason(ok.1, reason), ok.0.id, now);
      Board(svc.classes, svc.applications) == out.0 &&
      r == Ok(BatchReport(out.1, |ids.value|)) && r.value.totalProcessed == |r.value.results|
  {
    var check := BatchCheck(svc.users, token, ids, action);
    if check.Err? {
      return Err(check.error);
    }
    var u := check.value.0;
    var s := check.value.1;
    var why := RejectReason(s, reason);
    var list := ids.value;
    ghost var b0 := Board(svc.classes, svc.applications);
    var results: seq<BatchItem> := [];
    var i := 0;
    while i < |list|
      invariant 0 <= i <= |list|
      invariant svc.Valid() && svc.users == old(svc.users)
      invariant Linked(b0)
      invariant (Board(svc.classes, svc.applications), results) == Batch(b0, list[..i], s, why, u.id, now)
    {
      BatchStep(b0, list, i, s, why, u.id, now);
      ghost var before := Board(svc.classes, svc.applications);
      var q := svc.ProcessApplication(list[i], s, why, u.id, now);
      assert (Board(svc.classes, svc.applications), q) == ProcessOne(before, list[i], s, why, u.id, now);
      results := results + [ItemOf(list[i], q)];
      i := i + 1;
    }
    assert list[..|list|] == list;
    return Ok(BatchReport(results, |results|));
  }
}
