/**
 * AuthController.java: registration (required fields, then duplicate
 * username, duplicate email and role, each refusal naming its field),
 * login (credentials, then the `username.role.uuid` token and the avatar
 * shown), and logout, which always succeeds.
 */
module AuthControllers {
  import opened Wrappers
  import opened JavaStrings
  import opened Users
  import opened UserServices
  import opened Tokens

  datatype AuthRefusal =
    | MissingFields
    | FieldError(field: string, message: string)
    | Service(error: UserError)

  /** The body of the bad request: a text, or a map with "message" (and "field"). */
  function RefusalMessage(f: AuthRefusal): string {
    match f
    case MissingFields => "所有必填字段不能为空"
    case FieldError(_, m) => m
    case Service(e) => UserServices.Message(e)
  }

  /** The multipart form of a registration; None is a parameter that was not sent. */
  datatype RegisterForm = RegisterForm(
    username: Option<string>,
    password: Option<string>,
    name: Option<string>,
    email: Option<string>,
    role: Option<string>,
    avatar: Option<Upload>)

  /** An uploaded file: whether it is empty, and the extension of its original name (null without a dot). */
  datatype Upload = Upload(isEmpty: bool, extension: Option<string>)

  predicate Complete(f: RegisterForm) {
    f.username.Some? && f.password.Some? && f.name.Some? && f.email.Some? && f.role.Some?
  }

  const RoleRefusal: string := "无效的用户角色，有效值为: ADMIN, TEACHER, STUDENT"

  /**
   * The controller's checks, in order: every required field present, the
   * username free, the email free, and a role name once upper-cased.
   */
  function RegisterFormCheck(users: map<UserId, User>, f: RegisterForm, upper: string -> string)
    : (r: Result<Role, AuthRefusal>)
    ensures !Complete(f) ==> r == Err(MissingFields)
    ensures Complete(f) && UsernameTaken(users, f.username.value) ==>
      r == Err(FieldError("username", "用户名 '" + f.username.value + "' 已被注册，请选择其他用户名"))
    ensures Complete(f) && !UsernameTaken(users, f.username.value) && EmailTaken(users, f.email.value) ==>
      r == Err(FieldError("email", "邮箱 '" + f.email.value + "' 已被注册，请使用其他邮箱地址"))
    ensures r.Ok? <==>
      Complete(f) && !UsernameTaken(users, f.username.value) && !EmailTaken(users, f.email.value) &&
      ParseRoleIgnoringCase(upper, f.role.value).Some?
    ensures r.Ok? ==> RoleName(r.value) == upper(f.role.value)
    ensures r.Err? && r.error.FieldError? ==> r.error.field in {"username", "email", "role"}
    ensures r.Err? && r.error.FieldError? && r.error.field == "role" ==> r.error.message == RoleRefusal
  {
    if !Complete(f) then Err(MissingFields)
    else if UsernameTaken(users, f.username.value) then
      Err(FieldError("username", "用户名 '" + f.username.value + "' 已被注册，请选择其他用户名"))
    else if EmailTaken(users, f.email.value) then
      Err(FieldError("email", "邮箱 '" + f.email.value + "' 已被注册，请使用其他邮箱地址"))
    else
      match ParseRoleIgnoringCase(upper, f.role.value)
      case None => Err(FieldError("role", RoleRefusal))
      case Some(x) => Ok(x)
  }

  const DefaultAvatar: string := "/default-avatar.png"
  const AvatarDir: string := "uploads/avatars/"

  /** The avatar path stored at registration: the uploaded file's new name, or the default picture. */
  function RegisterAvatar(avatar: Option<Upload>, uuid: string): (url: string)
    ensures (avatar.None? || avatar.value.isEmpty) ==> url == DefaultAvatar
    ensures avatar.Some? && !avatar.value.isEmpty ==>
      url == AvatarDir + uuid + "." + Text(avatar.value.extension) && StartsWith(url, AvatarDir)
  {
    if avatar.None? || avatar.value.isEmpty then DefaultAvatar
    else
      var url := AvatarDir + uuid + "." + Text(avatar.value.extension);
      assert url[..|AvatarDir|] == AvatarDir;
      url
  }

  /** The account handed to `registerUser`; its id is assigned there. */
  function FormUser(f: RegisterForm, role: Role, uuid: string): (u: User)
    requires Complete(f)
    ensures u.username == f.username.value && u.password == f.password.value && u.role == role
    ensures u.name == f.name && u.email == f.email && u.avatarUrl == Some(RegisterAvatar(f.avatar, uuid))
  {
    User(0, f.username.value, f.password.value, role, f.name, f.email, Some(RegisterAvatar(f.avatar, uuid)))
  }

  /**
   * `register`: the form's checks, then `registerUser`, whose own checks
   * repeat the two duplicate checks and so never fail after them.
   */
  method Register(svc: UserService, f: RegisterForm, upper: string -> string, uuid: string, encode: string -> string)
    returns (r: Result<User, AuthRefusal>)
    requires svc.Valid()
    modifies svc
    ensures svc.Valid()
    ensures svc.classes == old(svc.classes) && svc.applications == old(svc.applications)
    ensures RegisterFormCheck(old(svc.users), f, upper).Err? ==>
      r == Err(RegisterFormCheck(old(svc.users), f, upper).error) && svc.users == old(svc.users)
    ensures RegisterFormCheck(old(svc.users), f, upper).Ok? ==>
      r == Ok(NewAccount(FormUser(f, RegisterFormCheck(old(svc.users), f, upper).value, uuid), old(svc.nextUserId), encode)) &&
      svc.users == old(svc.users)[r.value.id := r.value]
  {
    var check := RegisterFormCheck(svc.users, f, upper);
    if check.Err? {
      return Err(check.error);
    }
    var u := FormUser(f, check.value, uuid);
    assert RegisterCheck(svc.users, u).None?;
    var a := svc.RegisterUser(u, encode);
    return Ok(a.value);
  }

  const LoginDefaultAvatar: string := "/assets/images/default-avatar.png"

  /** The `user` part of the login response. */
  datatype LoginView = LoginView(id: UserId, username: string, name: Option<string>, email: Option<string>,
                                 role: Role, avatarUrl: string)

  /** The avatar the login response shows: the stored one unless it is null or empty. */
  function LoginAvatar(stored: Option<string>): (url: string)
    ensures (stored.None? || stored.value == "") ==> url == LoginDefaultAvatar
    ensures stored.Some? && stored.value != "" ==> url == stored.value
    ensures url != ""
  {
    if stored.Some? && stored.value != "" then stored.value else LoginDefaultAvatar
  }

  datatype LoginResponse = LoginResponse(user: LoginView, token: string)

  /** `login`: the credentials are checked, then the token and the view are built. */
  function Login(users: map<UserId, User>, username: string, password: string,
                 matches: (string, string) -> bool, uuid: string): (r: Result<LoginResponse, AuthRefusal>)
    requires UniqueAccounts(users)
    ensures r.Err? <==> ValidateUserCredentials(users, username, password, matches).Err?
    ensures r.Err? ==> r.error == Service(ValidateUserCredentials(users, username, password, matches).error)
    ensures r.Ok? ==>
      var u := ValidateUserCredentials(users, username, password, matches).value;
      r.value.token == LoginToken(u.username, u.role, uuid) &&
      r.value.user == LoginView(u.id, u.username, u.name, u.email, u.role, LoginAvatar(u.avatarUrl)) &&
      u.username == username
  {
    match ValidateUserCredentials(users, username, password, matches)
    case Err(e) => Err(Service(e))
    case Ok(u) =>
      Ok(LoginResponse(LoginView(u.id, u.username, u.name, u.email, u.role, LoginAvatar(u.avatarUrl)),
                       LoginToken(u.username, u.role, uuid)))
  }

  /**
   * An account registered through the form logs in with its raw password,
   * and the token it receives, sent back as "Bearer <token>", authenticates
   * the same username and role with the filter.
   */
  lemma RegisterThenLogin(users: map<UserId, User>, f: RegisterForm, role: Role, id: UserId,
                          avatarUuid: string, tokenUuid: string,
                          encode: string -> string, matches: (string, string) -> bool)
    requires UniqueAccounts(users) && id !in users && Complete(f)
    requires !UsernameTaken(users, f.username.value) && !EmailTaken(users, f.email.value)
    requires forall p :: matches(p, encode(p))
    requires '.' !in f.username.value && UuidText(tokenUuid)
    ensures var a := NewAccount(FormUser(f, role, avatarUuid), id, encode);
            var m := users[id := a];
            UniqueAccounts(m) &&
            Login(m, f.username.value, f.password.value, matches, tokenUuid).Ok? &&
            FilterAuthentication(Some(BearerPrefix +
              Login(m, f.username.value, f.password.value, matches, tokenUuid).value.token)) ==
            Some(Caller(f.username.value, RoleName(role)))
  {
    var u := FormUser(f, role, avatarUuid);
    assert u.email == Some(f.email.value);
    assert RegisterCheck(users, u).None?;
    RegisteredCanLogIn(users, u, id, encode, matches);
    LoginTokenPassesFilter(f.username.value, role, tokenUuid);
  }

  // `logout` reads no state and always answers with a fixed success message, so it is not modelled.
}
