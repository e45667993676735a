/**
 * frontend/src/components/auth/Login/Login.tsx: the two login forms. An
 * answer with a user stores the session (the token only when one came
 * back), remembers or forgets the username, and opens the role's dashboard.
 */
module LoginPage {
  import opened Wrappers
  import opened JavaStrings
  import opened Scripts
  import opened Browser
  import AppRoutes
  import Layouts

  /** The parts of a login answer the page reads: its `user` object and its `token`. */
  datatype LoginReply = LoginReply(user: Option<StoredUser>, token: Option<string>)

  /** A request either answers or fails with the server's `message`, if it sent one. */
  datatype Answer = Answered(reply: LoginReply) | Failed(message: Option<string>)

  /** The page opened after a login, by the answer's role. */
  function LandingPath(role: Option<string>): (path: string)
    ensures role == Some("STUDENT") ==> path == "/student/dashboard"
    ensures role == Some("TEACHER") ==> path == "/teacher/dashboard"
    ensures role == Some("ADMIN") ==> path == "/admin/dashboard"
    ensures role !in {Some("STUDENT"), Some("TEACHER"), Some("ADMIN")} ==> path == "/dashboard"
  {
    if role == Some("STUDENT") then "/student/dashboard"
    else if role == Some("TEACHER") then "/teacher/dashboard"
    else if role == Some("ADMIN") then "/admin/dashboard"
    else "/dashboard"
  }

  /** The error toast of a failed login: the server's message, or the page's default. */
  function FailureToast(message: Option<string>, default: string): (t: string)
    ensures Truthy(message) ==> t == message.value
    ensures !Truthy(message) ==> t == default
  {
    if Truthy(message) then message.value else default
  }

  /** `handleLogin` */
  method HandleLogin(storage: LocalStorage, username: string, remember: bool, answer: Answer)
    returns (navigation: Option<string>, toast: Option<string>)
    modifies storage
    ensures answer.Failed? ==>
      storage.token == old(storage.token) && storage.user == old(storage.user) &&
      storage.rememberedUser == old(storage.rememberedUser) && navigation.None? &&
      toast == Some(FailureToast(answer.message, "登录失败，请检查用户名和密码"))
    ensures answer.Answered? && answer.reply.user.None? ==>
      storage.token == old(storage.token) && storage.user == old(storage.user) &&
      storage.rememberedUser == old(storage.rememberedUser) && navigation.None? && toast.None?
    ensures answer.Answered? && answer.reply.user.Some? ==>
      storage.token == (if Truthy(answer.reply.token) then answer.reply.token else old(storage.token)) &&
      storage.rememberedUser == (if remember then Some(username) else None) &&
      storage.user == answer.reply.user &&
      navigation == Some(LandingPath(answer.reply.user.value.role)) && toast == Some("登录成功")
  {
    navigation := None;
    toast := None;
    if answer.Failed? {
      toast := Some(FailureToast(answer.message, "登录失败，请检查用户名和密码"));
      return;
    }
    var reply := answer.reply;
    if reply.user.Some? {
      if Truthy(reply.token) {
        storage.token := reply.token;
      }
      if remember {
        storage.rememberedUser := Some(username);
      } else {
        storage.rememberedUser := None;
      }
      storage.user := reply.user;
      toast := Some("登录成功");
      navigation := Some(LandingPath(reply.user.value.role));
    }
  }

  /** `handleMobileLogin`: the user is stored, a token never is, and the page is always /dashboard. */
  method HandleMobileLogin(storage: LocalStorage, mobile: string, remember: bool, answer: Answer)
    returns (navigation: Option<string>, toast: Option<string>)
    modifies storage
    ensures storage.token == old(storage.token)
    ensures answer.Failed? ==>
      storage.user == old(storage.user) && storage.rememberedUser == old(storage.rememberedUser) &&
      navigation.None? && toast == Some(FailureToast(answer.message, "登录失败，请检查手机号和验证码"))
    ensures answer.Answered? && answer.reply.user.None? ==>
      storage.user == old(storage.user) && storage.rememberedUser == old(storage.rememberedUser) &&
      navigation.None? && toast.None?
    ensures answer.Answered? && answer.reply.user.Some? ==>
      storage.rememberedUser == (if remember then Some(mobile) else None) &&
      storage.user == answer.reply.user && navigation == Some("/dashboard") && toast == Some("登录成功")
  {
    navigation := None;
    toast := None;
    if answer.Failed? {
      toast := Some(FailureToast(answer.message, "登录失败，请检查手机号和验证码"));
      return;
    }
    if answer.reply.user.Some? {
      if remember {
        storage.rememberedUser := Some(mobile);
      } else {
        storage.rememberedUser := None;
      }
      storage.user := answer.reply.user;
      toast := Some("登录成功");
      navigation := Some("/dashboard");
    }
  }

  /** A student who has just logged in lands on a page whose guard admits them. */
  lemma StudentLandingIsAdmitted(user: StoredUser)
    requires user.role == Some("STUDENT")
    ensures AppRoutes.RequiredRoleOf(LandingPath(user.role)) == Some("STUDENT")
    ensures AppRoutes.ProtectedRoute(user, "STUDENT") == AppRoutes.Render
  {
    var landing := LandingPath(user.role);
    var rest := landing[9..];
    assert landing == "/student/" + rest;
    assert rest == "dashboard";
    AppRoutes.DashboardChild(rest);
    AppRoutes.StudentSection(rest);
  }

  /** A teacher who has just logged in lands on a page whose guard admits them. */
  lemma TeacherLandingIsAdmitted(user: StoredUser)
    requires user.role == Some("TEACHER")
    ensures AppRoutes.RequiredRoleOf(LandingPath(user.role)) == Some("TEACHER")
    ensures AppRoutes.ProtectedRoute(user, "TEACHER") == AppRoutes.Render
  {
    var landing := LandingPath(user.role);
    var rest := landing[9..];
    assert landing == "/teacher/" + rest;
    assert rest == "dashboard";
    AppRoutes.DashboardChild(rest);
    AppRoutes.TeacherSection(rest);
  }

  /** The layout keeps a logged-in user with an id on the page their login opened. */
  lemma LandingStays(user: StoredUser)
    requires user.role.Some? && user.role.value in {"STUDENT", "TEACHER", "ADMIN"} && TruthyNumber(user.id)
    ensures Layouts.LayoutRedirect(user, LandingPath(user.role)).None?
  {
    Layouts.OwnDashboardStays(user);
    assert Layouts.BasePath(RoleOf(user)) + "/dashboard" == LandingPath(user.role);
  }

  /** An administrator's landing page belongs to no route of the table. */
  lemma AdminLandsNowhere(user: StoredUser)
    requires user.role == Some("ADMIN")
    ensures AppRoutes.Resolve(LandingPath(user.role)).None?
  {
    var landing := LandingPath(user.role);
    var rest := landing[7..];
    assert landing == "/admin/" + rest;
    AppRoutes.NoAdminSection(rest);
  }
}
