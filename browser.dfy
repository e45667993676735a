/**
 * The browser state the frontend shares between its pages: the three
 * localStorage keys it uses ("token", "user" and "rememberedUser"). The
 * "user" key holds `JSON.stringify` of the login response's user; the model
 * keeps the parsed object and only its `id` and `role`, which are the parts
 * any page reads back.
 */
module Browser {
  import opened Wrappers
  import opened Scripts

  /** `JSON.parse(localStorage.getItem('user') || '{}')`; a missing key parses to `{}`. */
  datatype StoredUser = StoredUser(id: Option<int>, role: Option<string>)

  const NoUser: StoredUser := StoredUser(None, None)

  class LocalStorage {
    var token: Option<string>
    var user: Option<StoredUser>
    var rememberedUser: Option<string>

    constructor (token: Option<string>, user: Option<StoredUser>, rememberedUser: Option<string>)
      ensures this.token == token && this.user == user && this.rememberedUser == rememberedUser
    {
      this.token := token;
      this.user := user;
      this.rememberedUser := rememberedUser;
    }

    /** The object the pages work with: the stored user, or `{}` when there is none. */
    function CurrentUser(): (u: StoredUser)
      reads this
      ensures user.None? ==> u == NoUser
      ensures user.Some? ==> u == user.value
    {
      if user.Some? then user.value else NoUser
    }
  }

  /** `user.role || ''`: the role as the pages compare it, "" when missing. */
  function RoleOf(u: StoredUser): (r: string)
    ensures Truthy(u.role) <==> r != ""
    ensures Truthy(u.role) ==> r == u.role.value
  {
    if u.role.Some? then u.role.value else ""
  }
}
