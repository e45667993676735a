/**
 * Accounts (UserService.java): registration, credential checks, profile
 * and password changes, and the auto-approved class assignment a student
 * picks at registration. The password encoder is a pair of parameters:
 * `encode` and `matches(raw, stored)`.
 */
module UserServices {
  import opened Wrappers
  import opened Users
  import opened Activities
  import opened Classes

  datatype UserError =
    | UsernameExists
    | EmailExists
    | UserNotFound
    | WrongPassword
    | StudentNotFound
    | ClassNotFound
    | NotStudent
    | EmailUsedByOther
    | WrongOldPassword

  /** The text of the exception the service throws. */
  function Message(e: UserError): string {
    match e
    case UsernameExists => "用户名已存在"
    case EmailExists => "邮箱已被注册"
    case UserNotFound => "用户不存在"
    case WrongPassword => "密码错误"
    case StudentNotFound => "学生不存在"
    case ClassNotFound => "班级不存在"
    case NotStudent => "只有学生可以加入班级"
    case EmailUsedByOther => "邮箱已被其他用户使用"
    case WrongOldPassword => "原密码错误"
  }

  /**
   * `existsByEmail(user.getEmail())`. A derived query compares a null
   * parameter with IS NULL, so a missing email is "taken" as soon as some
   * account has none.
   */
  predicate EmailValueTaken(users: map<UserId, User>, e: Option<string>) {
    exists i :: i in users && users[i].email == e
  }

  /** The checks of `registerUser`: the username first, then the email. */
  function RegisterCheck(users: map<UserId, User>, u: User): (e: Option<UserError>)
    ensures UsernameTaken(users, u.username) ==> e == Some(UsernameExists)
    ensures !UsernameTaken(users, u.username) && EmailValueTaken(users, u.email) ==> e == Some(EmailExists)
    ensures e.None? <==> !UsernameTaken(users, u.username) && !EmailValueTaken(users, u.email)
  {
    if UsernameTaken(users, u.username) then Some(UsernameExists)
    else if EmailValueTaken(users, u.email) then Some(EmailExists)
    else None
  }

  /** The account `registerUser` stores: the generated id and the ENCODED password. */
  function NewAccount(u: User, id: UserId, encode: string -> string): (a: User)
    ensures a.id == id && a.password == encode(u.password)
    ensures a.username == u.username && a.role == u.role
    ensures a.name == u.name && a.email == u.email && a.avatarUrl == u.avatarUrl
  {
    u.(id := id, password := encode(u.password))
  }

  /** A new account that passed RegisterCheck keeps usernames and emails unique. */
  lemma {:induction false} RegisterKeepsUnique(users: map<UserId, User>, u: User, id: UserId, encode: string -> string)
    requires UniqueAccounts(users) && id !in users && RegisterCheck(users, u).None?
    ensures UniqueAccounts(users[id := NewAccount(u, id, encode)])
  {
    var m := users[id := NewAccount(u, id, encode)];
    forall i, j | i in m && j in m && i != j
      ensures m[i].username != m[j].username
    {
      if i == id {
        assert users[j].username != u.username;
      } else if j == id {
        assert users[i].username != u.username;
      }
    }
    forall i, j | i in m && j in m && i != j && m[i].email.Some?
      ensures m[i].email != m[j].email
    {
      if i == id {
        assert users[j].email != u.email;
      } else if j == id {
        assert users[i].email != u.email;
      }
    }
  }

  /** `validateUserCredentials`: the account, when it exists and the password matches. */
  function ValidateUserCredentials(users: map<UserId, User>, username: string, password: string,
                                   matches: (string, string) -> bool): (r: Result<User, UserError>)
    requires UniqueAccounts(users)
    ensures !UsernameTaken(users, username) ==> r == Err(UserNotFound)
    ensures UsernameTaken(users, username) ==>
      var u := users[FindByUsername(users, username).value];
      r == (if matches(password, u.password) then Ok(u) else Err(WrongPassword))
    ensures r.Ok? ==> r.value.username == username && r.value in users.Values
  {
    match FindByUsername(users, username)
    case None => Err(UserNotFound)
    case Some(i) => if matches(password, users[i].password) then Ok(users[i]) else Err(WrongPassword)
  }

  /**
   * With an encoder whose `matches` accepts each password against its own
   * encoding, a freshly registered account can log in with the raw password.
   */
  lemma {:induction false} RegisteredCanLogIn(users: map<UserId, User>, u: User, id: UserId,
                                              encode: string -> string, matches: (string, string) -> bool)
    requires UniqueAccounts(users) && id !in users && RegisterCheck(users, u).None?
    requires forall p :: matches(p, encode(p))
    ensures UniqueAccounts(users[id := NewAccount(u, id, encode)])
    ensures ValidateUserCredentials(users[id := NewAccount(u, id, encode)], u.username, u.password, matches) ==
            Ok(NewAccount(u, id, encode))
  {
    var m := users[id := NewAccount(u, id, encode)];
    RegisterKeepsUnique(users, u, id, encode);
    assert m[id].username == u.username;
    assert UsernameTaken(m, u.username);
    assert FindByUsername(m, u.username) == Some(id);
  }

  /** The checks of `processStudentClassAssignment`. */
  function AssignmentCheck(users: map<UserId, User>, classes: map<ClassId, ClassEntity>,
                           studentId: UserId, classId: ClassId): (e: Option<UserError>)
    ensures e.None? <==> studentId in users && classId in classes && users[studentId].role == STUDENT
    ensures studentId !in users ==> e == Some(StudentNotFound)
    ensures studentId in users && classId !in classes ==> e == Some(ClassNotFound)
    ensures (studentId in users && classId in classes && users[studentId].role != STUDENT) ==> e == Some(NotStudent)
  {
    if studentId !in users then Some(StudentNotFound)
    else if classId !in classes then Some(ClassNotFound)
    else if users[studentId].role != STUDENT then Some(NotStudent)
    else None
  }

  const AssignmentMessage := "注册时选择加入班级"

  /** `updateUserProfile`'s checks: the account exists, and a new email is nobody else's. */
  function ProfileCheck(users: map<UserId, User>, userId: UserId, email: Option<string>): (e: Option<UserError>)
    ensures userId !in users ==> e == Some(UserNotFound)
    ensures userId in users ==> (e.Some? <==> email.Some? && EmailTakenByOther(users, email.value, userId))
    ensures e.Some? ==> e == Some(UserNotFound) || e == Some(EmailUsedByOther)
    // re-submitting one's own email is never refused as someone else's
    ensures UniqueAccounts(users) && userId in users && email == users[userId].email ==> e.None?
  {
    if userId !in users then Some(UserNotFound)
    else if email.Some? && EmailTakenByOther(users, email.value, userId) then Some(EmailUsedByOther)
    else None
  }

  /** The profile after the update: a field changes only when a new value is given. */
  function ProfileUpdated(u: User, name: Option<string>, email: Option<string>, avatarUrl: Option<string>): (v: User)
    ensures v.name == (if name.Some? then name else u.name)
    ensures v.email == (if email.Some? then email else u.email)
    ensures v.avatarUrl == (if avatarUrl.Some? then avatarUrl else u.avatarUrl)
    ensures v.id == u.id && v.username == u.username && v.password == u.password && v.role == u.role
  {
    var v := if name.Some? then u.(name := name) else u;
    var v := if email.Some? then v.(email := email) else v;
    if avatarUrl.Some? then v.(avatarUrl := avatarUrl) else v
  }

  /** A profile update that passes its checks keeps usernames and emails unique. */
  lemma {:induction false} ProfileKeepsUnique(users: map<UserId, User>, userId: UserId,
                                              name: Option<string>, email: Option<string>, avatarUrl: Option<string>)
    requires UniqueAccounts(users) && ProfileCheck(users, userId, email).None?
    ensures UniqueAccounts(users[userId := ProfileUpdated(users[userId], name, email, avatarUrl)])
  {
    var v := ProfileUpdated(users[userId], name, email, avatarUrl);
    var m := users[userId := v];
    forall i, j | i in m && j in m && i != j && m[i].email.Some?
      ensures m[i].email != m[j].email
    {
      if i == userId && email.Some? {
        assert !(users[j].email == Some(email.value));
      } else if j == userId && email.Some? {
        assert !(users[i].email == Some(email.value));
      }
    }
  }

  /** `changePassword`'s checks: the account exists and the old password matches. */
  function PasswordCheck(users: map<UserId, User>, userId: UserId, oldPassword: string,
                         matches: (string, string) -> bool): (e: Option<UserError>)
    ensures e.None? <==> userId in users && matches(oldPassword, users[userId].password)
    ensures userId !in users ==> e == Some(UserNotFound)
    ensures userId in users && !matches(oldPassword, users[userId].password) ==> e == Some(WrongOldPassword)
  {
    if userId !in users then Some(UserNotFound)
    else if !matches(oldPassword, users[userId].password) then Some(WrongOldPassword)
    else None
  }

  /**
   * After a password change the new password opens the account, under an
   * encoder whose `matches` accepts each password against its encoding.
   */
  lemma {:induction false} NewPasswordLogsIn(users: map<UserId, User>, userId: UserId, newPassword: string,
                                             encode: string -> string, matches: (string, string) -> bool)
    requires UniqueAccounts(users) && userId in users
    requires forall p :: matches(p, encode(p))
    ensures UniqueAccounts(users[userId := users[userId].(password := encode(newPassword))])
    ensures var m := users[userId := users[userId].(password := encode(newPassword))];
            ValidateUserCredentials(m, users[userId].username, newPassword, matches) == Ok(m[userId])
  {
    var m := users[userId := users[userId].(password := encode(newPassword))];
    assert m[userId].username == users[userId].username;
    assert UsernameTaken(m, users[userId].username);
    assert FindByUsername(m, users[userId].username) == Some(userId);
  }

  /** The account service over in-memory repositories. */
  class UserService {
    /** userRepository, by id */
    var users: map<UserId, User>
    /** classRepository, by id */
    var classes: map<ClassId, ClassEntity>
    /** classApplicationRepository, by id */
    var applications: map<ApplicationId, ClassApplication>
    /** the next generated user id and application id */
    var nextUserId: UserId
    var nextApplicationId: ApplicationId

    ghost predicate Valid()
      reads this
    {
      UniqueAccounts(users) &&
      (forall i :: i in users ==> i < nextUserId) &&
      (forall a :: a in applications ==> applications[a].id == a && a < nextApplicationId)
    }

    constructor (users: map<UserId, User>, nextUserId: UserId, classes: map<ClassId, ClassEntity>)
      requires UniqueAccounts(users) && forall i :: i in users ==> i < nextUserId
      ensures Valid()
      ensures this.users == users && this.classes == classes && applications == map[]
    {
      this.users := users;
      this.nextUserId := nextUserId;
      this.classes := classes;
      applications := map[];
      nextApplicationId := 1;
    }

    /** `registerUser`: stores the account under a new id, with its password encoded. */
    method RegisterUser(u: User, encode: string -> string) returns (r: Result<User, UserError>)
      requires Valid()
      modifies this
      ensures Valid()
      ensures classes == old(classes) && applications == old(applications)
      ensures RegisterCheck(old(users), u).Some? ==>
        r == Err(RegisterCheck(old(users), u).value) && users == old(users)
      ensures RegisterCheck(old(users), u).None? ==>
        r == Ok(NewAccount(u, old(nextUserId), encode)) && users == old(users)[r.value.id := r.value]
    {
      var e := RegisterCheck(users, u);
      if e.Some? {
        return Err(e.value);
      }
      var a := NewAccount(u, nextUserId, encode);
      RegisterKeepsUnique(users, u, nextUserId, encode);
      users := users[a.id := a];
      nextUserId := nextUserId + 1;
      return Ok(a);
    }

    /**
     * `processStudentClassAssignment`: stores an APPROVED application handled
     * at time now and appends the student to the class, with no check for an
     * earlier application or membership.
     */
    method ProcessStudentClassAssignment(studentId: UserId, classId: ClassId, now: Instant)
      returns (r: Option<UserError>)
      requires Valid()
      modifies this
      ensures Valid()
      ensures users == old(users)
      ensures r == AssignmentCheck(old(users), old(classes), studentId, classId)
      ensures r.Some? ==> classes == old(classes) && applications == old(applications)
      ensures r.None? ==>
        applications == old(applications)[old(nextApplicationId) :=
          ClassApplication(old(nextApplicationId), studentId, classId, APPROVED, Some(AssignmentMessage), None, Some(now))] &&
        classes == old(classes)[classId := old(classes)[classId].(students := old(classes)[classId].students + [studentId])]
    {
      r := AssignmentCheck(users, classes, studentId, classId);
      if r.Some? {
        return;
      }
      var app := ClassApplication(nextApplicationId, studentId, classId, APPROVED, Some(AssignmentMessage), None, Some(now));
      applications := applications[app.id := app];
      nextApplicationId := nextApplicationId + 1;
      var c := classes[classId];
      classes := classes[classId := c.(students := c.students + [studentId])];
    }

    /** `updateUserProfile`: a partial update where a missing value keeps the old one. */
    method UpdateUserProfile(userId: UserId, name: Option<string>, email: Option<string>, avatarUrl: Option<string>)
      returns (r: Result<User, UserError>)
      requires Valid()
      modifies this
      ensures Valid()
      ensures classes == old(classes) && applications == old(applications)
      ensures ProfileCheck(old(users), userId, email).Some? ==>
        r == Err(ProfileCheck(old(users), userId, email).value) && users == old(users)
      ensures ProfileCheck(old(users), userId, email).None? ==>
        r == Ok(ProfileUpdated(old(users)[userId], name, email, avatarUrl)) &&
        users == old(users)[userId := r.value]
    {
      var e := ProfileCheck(users, userId, email);
      if e.Some? {
        return Err(e.value);
      }
      var v := ProfileUpdated(users[userId], name, email, avatarUrl);
      ProfileKeepsUnique(users, userId, name, email, avatarUrl);
      users := users[userId := v];
      return Ok(v);
    }

    /** `changePassword`: the old password must match; the new one is stored encoded. */
    method ChangePassword(userId: UserId, oldPassword: string, newPassword: string,
                          encode: string -> string, matches: (string, string) -> bool)
      returns (r: Result<User, UserError>)
      requires Valid()
      modifies this
      ensures Valid()
      ensures classes == old(classes) && applications == old(applications)
      ensures PasswordCheck(old(users), userId, oldPassword, matches).Some? ==>
        r == Err(PasswordCheck(old(users), userId, oldPassword, matches).value) && users == old(users)
      ensures PasswordCheck(old(users), userId, oldPassword, matches).None? ==>
        r == Ok(old(users)[userId].(password := encode(newPassword))) &&
        users == old(users)[userId := r.value]
    {
      var e := PasswordCheck(users, userId, oldPassword, matches);
      if e.Some? {
        return Err(e.value);
      }
      var v := users[userId].(password := encode(newPassword));
      users := users[userId := v];
      return Ok(v);
    }
  }
}
