/**
 * UserController.java: profile and password changes. The caller is found
 * from the Authorization header (everything before its first dot, as
 * written), must exist, and must be the user named in the path.
 */
module UserControllers {
  import opened Wrappers
  import opened JavaStrings
  import opened Users
  import opened UserServices
  import opened Tokens
  import opened AuthControllers

  datatype ProfileRefusal =
    /** `parts[0]` of an empty split: an ArrayIndexOutOfBoundsException */
    | NoSegment
    | CallerMissing
    | NotOwner(message: string)
    | NullPassword
    | FromService(error: UserError)

  function RefusalMessage(f: ProfileRefusal): Option<string> {
    match f
    case NoSegment => None
    case CallerMissing => Some("用户不存在")
    case NotOwner(m) => Some(m)
    case NullPassword => Some("新旧密码不能为空")
    case FromService(e) => Some(UserServices.Message(e))
  }

  const ProfileDenied: string := "您无权修改此用户资料"
  const PasswordDenied: string := "您无权修改此用户密码"

  /**
   * The caller check both endpoints share: the header's username names an
   * account, and that account's id is the path's userId.
   */
  function OwnerCheck(users: map<UserId, User>, header: string, userId: UserId, denied: string)
    : (r: Option<ProfileRefusal>)
    requires UniqueAccounts(users)
    ensures HeaderUsername(header).None? ==> r == Some(NoSegment)
    ensures r.None? <==>
      HeaderUsername(header).Some? && UsernameTaken(users, HeaderUsername(header).value) &&
      users[FindByUsername(users, HeaderUsername(header).value).value].id == userId
    ensures HeaderUsername(header).Some? && !UsernameTaken(users, HeaderUsername(header).value) ==>
      r == Some(CallerMissing)
    ensures r.Some? ==> r.value in {NoSegment, CallerMissing, NotOwner(denied)}
  {
    match HeaderUsername(header)
    case None => Some(NoSegment)
    case Some(name) =>
      match FindByUsername(users, name)
      case None => Some(CallerMissing)
      case Some(id) => if users[id].id != userId then Some(NotOwner(denied)) else None
  }

  /**
   * The header the browser sends after login fails the caller check unless
   * an account is literally called "Bearer " + username: the profile
   * endpoints never reach the service for a regular account.
   */
  lemma BrowserHeaderFindsNoCaller(users: map<UserId, User>, username: string, role: Role, uuid: string,
                                   userId: UserId)
    requires UniqueAccounts(users) && '.' !in username && UuidText(uuid)
    requires !UsernameTaken(users, BearerPrefix + username)
    ensures OwnerCheck(users, BearerPrefix + LoginToken(username, role, uuid), userId, ProfileDenied) ==
            Some(CallerMissing)
  {
    HeaderUsernameKeepsBearer(username, role, uuid);
  }

  /** The avatar path a non-empty upload gets; without one the profile keeps its avatar. */
  function ProfileAvatar(avatar: Option<Upload>, uuid: string): (url: Option<string>)
    ensures (avatar.None? || avatar.value.isEmpty) ==> url.None?
    ensures avatar.Some? && !avatar.value.isEmpty ==> url == Some(RegisterAvatar(avatar, uuid))
  {
    if avatar.None? || avatar.value.isEmpty then None else Some(RegisterAvatar(avatar, uuid))
  }

  /** The `avatarUrl` of the response: the stored one, or the default picture when it is null. */
  function ShownAvatar(stored: Option<string>): (url: string)
    ensures stored.None? ==> url == DefaultAvatar
    ensures stored.Some? ==> url == stored.value
  {
    if stored.Some? then stored.value else DefaultAvatar
  }

  datatype ProfileView = ProfileView(user: User, avatarUrl: string)

  /** `updateProfile`: the caller check, then a partial update; the response shows a default avatar. */
  method UpdateProfile(svc: UserService, userId: UserId, name: Option<string>, email: Option<string>,
                       avatar: Option<Upload>, header: string, uuid: string)
    returns (r: Result<ProfileView, ProfileRefusal>)
    requires svc.Valid()
    modifies svc
    ensures svc.Valid()
    ensures svc.classes == old(svc.classes) && svc.applications == old(svc.applications)
    ensures OwnerCheck(old(svc.users), header, userId, ProfileDenied).Some? ==>
      r == Err(OwnerCheck(old(svc.users), header, userId, ProfileDenied).value) && svc.users == old(svc.users)
    ensures OwnerCheck(old(svc.users), header, userId, ProfileDenied).None? ==>
      var url := ProfileAvatar(avatar, uuid);
      (ProfileCheck(old(svc.users), userId, email).Some? ==>
         r == Err(FromService(ProfileCheck(old(svc.users), userId, email).value)) && svc.users == old(svc.users)) &&
      (ProfileCheck(old(svc.users), userId, email).None? ==>
         var v := ProfileUpdated(old(svc.users)[userId], name, email, url);
         r == Ok(ProfileView(v, ShownAvatar(v.avatarUrl))) && svc.users == old(svc.users)[userId := v])
  {
    var check := OwnerCheck(svc.users, header, userId, ProfileDenied);
    if check.Some? {
      return Err(check.value);
    }
    var q := svc.UpdateUserProfile(userId, name, email, ProfileAvatar(avatar, uuid));
    if q.Err? {
      return Err(FromService(q.error));
    }
    return Ok(ProfileView(q.value, ShownAvatar(q.value.avatarUrl)));
  }

  /** `changePassword`'s checks before the service: the caller, then both passwords given. */
  function PasswordRequestCheck(users: map<UserId, User>, header: string, userId: UserId,
                                oldPassword: Option<string>, newPassword: Option<string>): (r: Option<ProfileRefusal>)
    requires UniqueAccounts(users)
    ensures OwnerCheck(users, header, userId, PasswordDenied).Some? ==> r == OwnerCheck(users, header, userId, PasswordDenied)
    ensures OwnerCheck(users, header, userId, PasswordDenied).None? ==>
      (r.None? <==> oldPassword.Some? && newPassword.Some?)
    ensures r.Some? && OwnerCheck(users, header, userId, PasswordDenied).None? ==> r == Some(NullPassword)
  {
    var owner := OwnerCheck(users, header, userId, PasswordDenied);
    if owner.Some? then owner
    else if oldPassword.None? || newPassword.None? then Some(NullPassword)
    else None
  }

  /** `changePassword`: the request's checks, then the service's old-password check and the update. */
  method ChangePassword(svc: UserService, userId: UserId, oldPassword: Option<string>, newPassword: Option<string>,
                        header: string, encode: string -> string, matches: (string, string) -> bool)
    returns (r: Option<ProfileRefusal>)
    requires svc.Valid()
    modifies svc
    ensures svc.Valid()
    ensures svc.classes == old(svc.classes) && svc.applications == old(svc.applications)
    ensures PasswordRequestCheck(old(svc.users), header, userId, oldPassword, newPassword).Some? ==>
      r == PasswordRequestCheck(old(svc.users), header, userId, oldPassword, newPassword) && svc.users == old(svc.users)
    ensures PasswordRequestCheck(old(svc.users), header, userId, oldPassword, newPassword).None? ==>
      (PasswordCheck(old(svc.users), userId, oldPassword.value, matches).Some? ==>
         r == Some(FromService(PasswordCheck(old(svc.users), userId, oldPassword.value, matches).value)) &&
         svc.users == old(svc.users)) &&
      (PasswordCheck(old(svc.users), userId, oldPassword.value, matches).None? ==>
         r.None? &&
         svc.users == old(svc.users)[userId := old(svc.users)[userId].(password := encode(newPassword.value))])
  {
    r := PasswordRequestCheck(svc.users, header, userId, oldPassword, newPassword);
    if r.Some? {
      return;
    }
    var q := svc.ChangePassword(userId, oldPassword.value, newPassword.value, encode, matches);
    if q.Err? {
      r := Some(FromService(q.error));
    }
  }

  /**
   * `getUserInfo`: the caller must exist, but any caller may read any
   * account; the target's avatar is returned as stored, null included.
   */
  function GetUserInfo(users: map<UserId, User>, header: string, userId: UserId): (r: Result<User, ProfileRefusal>)
    requires UniqueAccounts(users)
    ensures HeaderUsername(header).None? ==> r == Err(NoSegment)
    ensures r.Ok? <==>
      HeaderUsername(header).Some? && UsernameTaken(users, HeaderUsername(header).value) && userId in users
    ensures r.Ok? ==> r.value == users[userId]
    ensures r.Err? && HeaderUsername(header).Some? ==> r.error == CallerMissing
  {
    match HeaderUsername(header)
    case None => Err(NoSegment)
    case Some(name) =>
      if FindByUsername(users, name).None? || userId !in users then Err(CallerMissing)
      else Ok(users[userId])
  }

  /** Unlike the two updates, reading needs no ownership: a caller reads another account as it is stored. */
  lemma AnyCallerReadsAnyAccount(users: map<UserId, User>, caller: UserId, userId: UserId)
    requires UniqueAccounts(users) && caller in users && userId in users
    requires '.' !in users[caller].username
    ensures GetUserInfo(users, users[caller].username, userId) == Ok(users[userId])
  {
    assert UsernameTaken(users, users[caller].username);
  }
}
