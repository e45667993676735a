/**
 * LoggingAspect.java: after a controller method returns, an audit entry is
 * written for writes the signature and the HTTP method classify; after
 * login returns, a login entry is meant to be written.
 */
module Auditing {
  import opened Wrappers
  import opened JavaStrings
  import opened Users
  import opened Activities
  import opened Logs

  /**
   * The class branch's test, `a || b && c` with `&&` binding tighter:
   * every ClassController method, or an AdminController method whose
   * signature spells "class" in lower case.
   */
  predicate ClassBranch(signature: string) {
    Contains(signature, "ClassController") || (Contains(signature, "AdminController") && Contains(signature, "class"))
  }

  /** The operation `determineOperationType` derives, or None when the call is not audited. */
  function DetermineOperationType(httpMethod: string, signature: string): (r: Option<OperationType>)
    // reading requests are never audited
    ensures httpMethod == "GET" ==> r.None?
    // the class branch answers alone: a write becomes a class operation, anything else nothing
    ensures ClassBranch(signature) ==>
      (r.Some? <==> httpMethod == "POST" || httpMethod == "PUT" || httpMethod == "DELETE")
    ensures ClassBranch(signature) && r.Some? ==> r.value in {CLASS_CREATE, CLASS_UPDATE, CLASS_DELETE}
    ensures r.Some? && r.value in {CLASS_CREATE, CLASS_UPDATE, CLASS_DELETE} ==> ClassBranch(signature)
    ensures r.Some? && r.value in {ACTIVITY_CREATE, ACTIVITY_UPDATE, ACTIVITY_DELETE} ==>
      !ClassBranch(signature) && Contains(signature, "ActivityController")
    // user records can be updated and deleted, never created, through this path
    ensures r.Some? && r.value in {USER_UPDATE, USER_DELETE} ==>
      !ClassBranch(signature) && !Contains(signature, "ActivityController") && Contains(signature, "UserController") &&
      (httpMethod == "PUT" || httpMethod == "DELETE")
    ensures r.Some? ==> r.value in {CLASS_CREATE, CLASS_UPDATE, CLASS_DELETE, ACTIVITY_CREATE, ACTIVITY_UPDATE,
                                    ACTIVITY_DELETE, USER_UPDATE, USER_DELETE}
    // the HTTP method decides which of the three writes it is
    ensures r.Some? && httpMethod == "POST" ==> r.value in {CLASS_CREATE, ACTIVITY_CREATE}
    ensures r.Some? && httpMethod == "PUT" ==> r.value in {CLASS_UPDATE, ACTIVITY_UPDATE, USER_UPDATE}
    ensures r.Some? && httpMethod == "DELETE" ==> r.value in {CLASS_DELETE, ACTIVITY_DELETE, USER_DELETE}
  {
    if ClassBranch(signature) then
      if httpMethod == "POST" then Some(CLASS_CREATE)
      else if httpMethod == "PUT" then Some(CLASS_UPDATE)
      else if httpMethod == "DELETE" then Some(CLASS_DELETE)
      else None
    else if Contains(signature, "ActivityController") then
      if httpMethod == "POST" then Some(ACTIVITY_CREATE)
      else if httpMethod == "PUT" then Some(ACTIVITY_UPDATE)
      else if httpMethod == "DELETE" then Some(ACTIVITY_DELETE)
      else None
    else if Contains(signature, "UserController") then
      if httpMethod == "PUT" then Some(USER_UPDATE)
      else if httpMethod == "DELETE" then Some(USER_DELETE)
      else None
    else None
  }

  /** The only facts about Spring's Authentication the advice consults. */
  datatype Authentication = Authentication(authenticated: bool, principal: string)

  /** The argument a join point was called with, as far as the login advice looks at it. */
  datatype JoinArg =
    | MapArg(username: Option<string>)
    | UserArg(loginName: Option<string>)
    | OtherArg

  /**
   * Who `logControllerAccess` attributes the call to, and under which type:
   * None when there is no request, no real authentication, an unknown user
   * (findByUsername throws and the advice swallows it) or no type.
   */
  function ControllerLogEntry(users: map<UserId, User>, requestPresent: bool, auth: Option<Authentication>,
                              httpMethod: string, signature: string): (r: Option<(User, OperationType)>)
    requires UniqueAccounts(users)
    ensures r.Some? <==>
      (requestPresent && auth.Some? && auth.value.authenticated && auth.value.principal != "anonymousUser" &&
       UsernameTaken(users, auth.value.principal) && DetermineOperationType(httpMethod, signature).Some?)
    ensures r.Some? ==>
      r.value.0.username == auth.value.principal && r.value.0 in users.Values &&
      Some(r.value.1) == DetermineOperationType(httpMethod, signature)
  {
    if !requestPresent || auth.None? || !auth.value.authenticated || auth.value.principal == "anonymousUser" then None
    else
      match FindByUsername(users, auth.value.principal)
      case None => None
      case Some(id) =>
        match DetermineOperationType(httpMethod, signature)
        case None => None
        case Some(t) => Some((users[id], t))
  }

  /** `logControllerAccess`: one entry when the guards pass, none otherwise. */
  method LogControllerAccess(svc: LogService, users: map<UserId, User>, requestPresent: bool,
                             auth: Option<Authentication>, httpMethod: string, signature: string,
                             detail: string, ipAddress: string, now: Instant)
    requires svc.Valid() && UniqueAccounts(users)
    modifies svc
    ensures svc.Valid()
    ensures ControllerLogEntry(users, requestPresent, auth, httpMethod, signature).None? ==> svc.logs == old(svc.logs)
    ensures ControllerLogEntry(users, requestPresent, auth, httpMethod, signature).Some? ==>
      var e := ControllerLogEntry(users, requestPresent, auth, httpMethod, signature).value;
      svc.logs == old(svc.logs)[old(svc.nextLogId) := NewLog(old(svc.nextLogId), e.1, detail, Some(e.0), ipAddress, now)]
  {
    var e := ControllerLogEntry(users, requestPresent, auth, httpMethod, signature);
    if e.Some? {
      var _ := svc.CreateLog(e.value.1, detail, Some(e.value.0), ipAddress, now);
    }
  }

  /** The detail of a login entry. */
  function LoginDetail(username: string): string {
    "用户登录成功: " + username
  }

  /**
   * The user `logLoginOperation` as written would record: the first argument
   * must be a Map whose username is non-empty and names a known user.
   */
  function LoginLogUser(users: map<UserId, User>, args: seq<JoinArg>): (r: Option<User>)
    requires UniqueAccounts(users)
    ensures r.Some? <==>
      (|args| > 0 && args[0].MapArg? && args[0].username.Some? && args[0].username.value != "" &&
       UsernameTaken(users, args[0].username.value))
    ensures r.Some? ==> r.value in users.Values && r.value.username == args[0].username.value
  {
    if |args| == 0 || !args[0].MapArg? || args[0].username.None? || args[0].username.value == "" then None
    else
      match FindByUsername(users, args[0].username.value)
      case None => None
      case Some(id) => Some(users[id])
  }

  /** `logLoginOperation` as written. */
  method LogLoginOperation(svc: LogService, users: map<UserId, User>, args: seq<JoinArg>, ipAddress: string, now: Instant)
    requires svc.Valid() && UniqueAccounts(users)
    modifies svc
    ensures svc.Valid()
    ensures LoginLogUser(users, args).None? ==> svc.logs == old(svc.logs)
    ensures LoginLogUser(users, args).Some? ==>
      svc.logs == old(svc.logs)[old(svc.nextLogId) :=
        NewLog(old(svc.nextLogId), USER_LOGIN, LoginDetail(args[0].username.value), LoginLogUser(users, args), ipAddress, now)]
  {
    var u := LoginLogUser(users, args);
    if u.Some? {
      var _ := svc.CreateLog(USER_LOGIN, LoginDetail(args[0].username.value), u, ipAddress, now);
    }
  }

  /**
   * `AuthController.login` takes its request body as a User, so the advice
   * sees a User argument and never writes a login entry, whatever the
   * credentials and whether they were right.
   */
  lemma LoginIsNeverLogged(users: map<UserId, User>, loginName: Option<string>)
    requires UniqueAccounts(users)
    ensures LoginLogUser(users, [UserArg(loginName)]).None?
  {
  }

  /**
   * The evident intent: one USER_LOGIN entry per successful login, naming
   * the user who logged in. `succeeded` is whether login returned the token.
   */
  function IntendedLoginUser(users: map<UserId, User>, args: seq<JoinArg>, succeeded: bool): (r: Option<User>)
    requires UniqueAccounts(users)
    ensures r.Some? ==> succeeded && r.value in users.Values
    ensures (succeeded && |args| > 0 && args[0].UserArg? && args[0].loginName.Some? &&
             UsernameTaken(users, args[0].loginName.value)) ==>
      r.Some? && r.value.username == args[0].loginName.value
  {
    if !succeeded || |args| == 0 || !args[0].UserArg? || args[0].loginName.None? then None
    else
      match FindByUsername(users, args[0].loginName.value)
      case None => None
      case Some(id) => Some(users[id])
  }

  /** The corrected advice: a successful login is recorded, a failed one is not. */
  method LogSuccessfulLogin(svc: LogService, users: map<UserId, User>, args: seq<JoinArg>, succeeded: bool,
                            ipAddress: string, now: Instant)
    requires svc.Valid() && UniqueAccounts(users)
    modifies svc
    ensures svc.Valid()
    ensures IntendedLoginUser(users, args, succeeded).None? ==> svc.logs == old(svc.logs)
    ensures IntendedLoginUser(users, args, succeeded).Some? ==>
      var u := IntendedLoginUser(users, args, succeeded).value;
      svc.logs == old(svc.logs)[old(svc.nextLogId) :=
        NewLog(old(svc.nextLogId), USER_LOGIN, LoginDetail(u.username), Some(u), ipAddress, now)]
  {
    var u := IntendedLoginUser(users, args, succeeded);
    if u.Some? {
      var _ := svc.CreateLog(USER_LOGIN, LoginDetail(u.value.username), u, ipAddress, now);
    }
  }
}
