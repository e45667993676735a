/**
 * Accounts (User.java) and their roles. The ids are the database's generated
 * keys; usernames are unique.
 */
module Users {
  import opened Wrappers

  type UserId = int

  /** The roles a user has: STUDENT, TEACHER or ADMIN. */
  datatype Role = STUDENT | TEACHER | ADMIN

  /** `role.name()` */
  function RoleName(r: Role): string {
    match r
    case STUDENT => "STUDENT"
    case TEACHER => "TEACHER"
    case ADMIN => "ADMIN"
  }

  /** `UserRole.valueOf(s)`: only an exact constant name is accepted. */
  function RoleValueOf(s: string): (r: Option<Role>)
    ensures r.Some? ==> RoleName(r.value) == s
    ensures r.None? ==> forall x: Role :: RoleName(x) != s
  {
    if s == "STUDENT" then Some(STUDENT)
    else if s == "TEACHER" then Some(TEACHER)
    else if s == "ADMIN" then Some(ADMIN)
    else None
  }

  lemma RoleValueOfName(r: Role)
    ensures RoleValueOf(RoleName(r)) == Some(r)
  {
  }

  /**
   * `UserRole.valueOf(s.toUpperCase())` as the controllers parse a role typed
   * by a person; `upper` is Java's locale-dependent `toUpperCase`.
   */
  function ParseRoleIgnoringCase(upper: string -> string, s: string): (r: Option<Role>)
    ensures r.Some? <==> exists x: Role :: RoleName(x) == upper(s)
    ensures r.Some? ==> RoleName(r.value) == upper(s)
  {
    var r := RoleValueOf(upper(s));
    assert r.Some? ==> RoleName(r.value) == upper(s);
    r
  }

  /**
   * One row of the users table. `name`, `email` and `avatarUrl` are nullable
   * columns; `password` holds the encoder's output.
   */
  datatype User = User(
    id: UserId,
    username: string,
    password: string,
    role: Role,
    name: Option<string>,
    email: Option<string>,
    avatarUrl: Option<string>)

  /** The database's unique constraints on username and email. */
  ghost predicate UniqueAccounts(users: map<UserId, User>) {
    (forall i :: i in users ==> users[i].id == i) &&
    (forall i, j :: i in users && j in users && i != j ==>
       users[i].username != users[j].username) &&
    (forall i, j :: i in users && j in users && i != j && users[i].email.Some? ==>
       users[i].email != users[j].email)
  }

  /** `userRepository.existsByUsername(u)` */
  predicate UsernameTaken(users: map<UserId, User>, u: string) {
    exists i :: i in users && users[i].username == u
  }

  /** `userRepository.existsByEmail(e)` */
  predicate EmailTaken(users: map<UserId, User>, e: string) {
    exists i :: i in users && users[i].email == Some(e)
  }

  /** `existsByEmailAndIdNot(e, id)`: some OTHER account has the email. */
  predicate EmailTakenByOther(users: map<UserId, User>, e: string, id: UserId) {
    exists i :: i in users && i != id && users[i].email == Some(e)
  }

  /** `userRepository.findByUsername(u)`: the account with that username, if any. */
  function FindByUsername(users: map<UserId, User>, u: string): (r: Option<UserId>)
    requires UniqueAccounts(users)
    ensures r.Some? <==> UsernameTaken(users, u)
    ensures r.Some? ==> r.value in users && users[r.value].username == u
  {
    if UsernameTaken(users, u) then
      var i :| i in users && users[i].username == u;
      Some(i)
    else None
  }
}
