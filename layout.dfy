/**
 * frontend/src/components/Layout.tsx: the frame around every signed-in
 * page. It derives a base path and a menu from the stored role, sends a
 * user without id to /login and a user outside their base path to their
 * dashboard, and forgets the session only once logout has succeeded.
 */
module Layouts {
  import opened Wrappers
  import opened JavaStrings
  import opened Scripts
  import opened Browser
  import AppRoutes

  /** `getBasePath`: the section of the role; any other role has the empty base. */
  function BasePath(role: string): (base: string)
    ensures role == "TEACHER" ==> base == "/teacher"
    ensures role == "STUDENT" ==> base == "/student"
    ensures role == "ADMIN" ==> base == "/admin"
    ensures role !in {"TEACHER", "STUDENT", "ADMIN"} ==> base == ""
  {
    if role == "TEACHER" then "/teacher"
    else if role == "STUDENT" then "/student"
    else if role == "ADMIN" then "/admin"
    else ""
  }

  datatype MenuItem = MenuItem(key: string, title: string)

  /** The entries of a menu all lie under the prefix. */
  predicate AllUnder(items: seq<MenuItem>, prefix: string) {
    forall i :: 0 <= i < |items| ==> StartsWith(items[i].key, prefix)
  }

  function TeacherItems(): (items: seq<MenuItem>)
    ensures |items| == 5 && AllUnder(items, "/teacher/")
  {
    var items := [
      MenuItem("/teacher/dashboard", "教师工作台"),
      MenuItem("/teacher/classes", "班级管理"),
      MenuItem("/teacher/activities", "活动管理"),
      MenuItem("/teacher/targets", "学习目标"),
      MenuItem("/teacher/student", "学生评估")];
    assert forall i :: 0 <= i < |items| ==> items[i].key[..9] == "/teacher/";
    items
  }

  function StudentItems(): (items: seq<MenuItem>)
    ensures |items| == 4 && AllUnder(items, "/student/")
  {
    var items := [
      MenuItem("/student/dashboard", "学习仪表盘"),
      MenuItem("/student/learning-path", "学习路径"),
      MenuItem("/student/activities", "学习活动"),
      MenuItem("/student/feedback", "反馈提交")];
    assert forall i :: 0 <= i < |items| ==> items[i].key[..9] == "/student/";
    items
  }

  function AdminItems(): (items: seq<MenuItem>)
    ensures |items| == 6 && AllUnder(items, "/admin/")
  {
    var items := [
      MenuItem("/admin/dashboard", "系统概览"),
      MenuItem("/admin/classes", "班级管理"),
      MenuItem("/admin/teachers", "教师管理"),
      MenuItem("/admin/students", "学生管理"),
      MenuItem("/admin/logs", "系统日志"),
      MenuItem("/admin/settings", "系统设置")];
    assert forall i :: 0 <= i < |items| ==> items[i].key[..7] == "/admin/";
    items
  }

  function DefaultItems(): (items: seq<MenuItem>)
    ensures |items| == 4 && AllUnder(items, "/")
  {
    var items := [
      MenuItem("/dashboard", "仪表盘"),
      MenuItem("/learning-path", "学习路径"),
      MenuItem("/activities", "活动"),
      MenuItem("/feedback", "反馈")];
    assert forall i :: 0 <= i < |items| ==> items[i].key[..1] == "/";
    items
  }

  /**
   * `getMenuItems`: the side menu of each role, five entries for a teacher,
   * six for an administrator and four otherwise; every entry lies under the
   * role's base path followed by "/".
   */
  function MenuItems(role: string): (items: seq<MenuItem>)
    ensures |items| == (if role == "TEACHER" then 5 else if role == "ADMIN" then 6 else 4)
    ensures forall i :: 0 <= i < |items| ==> StartsWith(items[i].key, BasePath(role) + "/")
  {
    if role == "TEACHER" then TeacherItems()
    else if role == "STUDENT" then StudentItems()
    else if role == "ADMIN" then AdminItems()
    else DefaultItems()
  }

  /** The teacher's menu has five entries and none of them is an administrator page. */
  lemma TeacherMenu()
    ensures |MenuItems("TEACHER")| == 5
    ensures forall i :: 0 <= i < 5 ==> !StartsWith(MenuItems("TEACHER")[i].key, "/admin")
  {
    var items := MenuItems("TEACHER");
    forall i | 0 <= i < 5 ensures !StartsWith(items[i].key, "/admin") {
      assert items[i].key[1] == 't';
    }
  }

  /**
   * The mount effect: no truthy id sends the user to /login; a pathname
   * outside the base path sends them to their dashboard; otherwise they stay.
   */
  function LayoutRedirect(user: StoredUser, pathname: string): (target: Option<string>)
    ensures !TruthyNumber(user.id) ==> target == Some("/login")
    ensures TruthyNumber(user.id) ==>
      (target.None? <==> StartsWith(pathname, BasePath(RoleOf(user)))) &&
      (target.Some? ==> target.value == BasePath(RoleOf(user)) + "/dashboard")
  {
    if !TruthyNumber(user.id) then Some("/login")
    else
      var base := BasePath(RoleOf(user));
      if !StartsWith(pathname, base) then Some(base + "/dashboard") else None
  }

  /** A user whose role has no section is never moved: every pathname starts with "". */
  lemma EmptyBaseNeverRedirects(user: StoredUser, pathname: string)
    requires TruthyNumber(user.id) && RoleOf(user) !in {"TEACHER", "STUDENT", "ADMIN"}
    ensures LayoutRedirect(user, pathname).None?
  {
    assert pathname[..0] == "";
  }

  /** A user landing on their own dashboard stays there. */
  lemma OwnDashboardStays(user: StoredUser)
    requires TruthyNumber(user.id)
    ensures LayoutRedirect(user, BasePath(RoleOf(user)) + "/dashboard").None?
  {
    var base := BasePath(RoleOf(user));
    assert (base + "/dashboard")[..|base|] == base;
  }

  /** The profile entry of the user menu, by role. */
  function ProfileTarget(role: string): (target: string)
    ensures role == "STUDENT" ==> target == "/student/profile"
    ensures role == "TEACHER" ==> target == "/teacher/profile"
    ensures role != "STUDENT" && role != "TEACHER" ==> target == "/profile"
  {
    if role == "STUDENT" then "/student/profile"
    else if role == "TEACHER" then "/teacher/profile"
    else "/profile"
  }

  /**
   * The profile entry leads nowhere: neither section declares a "profile"
   * child and there is no top-level /profile route, so no route of the
   * table answers any of the three targets.
   */
  lemma ProfileTargetHasNoRoute(role: string)
    ensures AppRoutes.Resolve(ProfileTarget(role)).None?
  {
    var rest := "profile";
    AppRoutes.UndeclaredSingleSegment(rest);
    if role == "STUDENT" {
      assert ProfileTarget(role) == "/student/" + rest;
      AppRoutes.StudentSection(rest);
    } else if role == "TEACHER" {
      assert ProfileTarget(role) == "/teacher/" + rest;
      AppRoutes.TeacherSection(rest);
    } else {
      var t := ProfileTarget(role);
      assert t[1] == 'p' && t != "/";
      AppRoutes.NoRouteBeginsWith(t);
    }
  }

  /**
   * `handleLogout`: after the logout call succeeds the token and the user
   * are forgotten and the browser goes to /login; after a failure nothing
   * changes and an error is shown.
   */
  method HandleLogout(storage: LocalStorage, logoutSucceeded: bool) returns (navigation: Option<string>, toast: string)
    modifies storage
    ensures storage.rememberedUser == old(storage.rememberedUser)
    ensures logoutSucceeded ==>
      storage.token.None? && storage.user.None? && navigation == Some("/login") && toast == "退出登录成功"
    ensures !logoutSucceeded ==>
      storage.token == old(storage.token) && storage.user == old(storage.user) &&
      navigation.None? && toast == "退出登录失败，请重试"
  {
    if logoutSucceeded {
      toast := "退出登录成功";
      storage.token := None;
      storage.user := None;
      navigation := Some("/login");
    } else {
      toast := "退出登录失败，请重试";
      navigation := None;
    }
  }
}
