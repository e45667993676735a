/**
 * frontend/src/App.tsx: the route table and its guard. Each section of
 * the site sits behind `ProtectedRoute`, which looks only at the role of
 * the stored user and redirects to /login when it is missing or wrong.
 */
module AppRoutes {
  import opened Wrappers
  import opened JavaStrings
  import opened Scripts
  import opened Browser

  /** What `ProtectedRoute` renders: its children, or a redirect. */
  datatype Guarded = Render | RedirectTo(path: string)

  /**
   * `ProtectedRoute`: a user without a truthy role goes to /login whatever
   * is required; a non-empty required role must equal the user's role.
   */
  function ProtectedRoute(user: StoredUser, requiredRole: string): (d: Guarded)
    ensures d == Render <==> Truthy(user.role) && (requiredRole == "" || user.role.value == requiredRole)
    ensures d != Render ==> d == RedirectTo("/login")
  {
    if !Truthy(user.role) then RedirectTo("/login")
    else if requiredRole != "" && user.role.value != requiredRole then RedirectTo("/login")
    else Render
  }

  /** The guard as a page meets it: the stored user, read back from localStorage; the token is not read. */
  function GuardPage(storage: LocalStorage, requiredRole: string): (d: Guarded)
    reads storage
    ensures d == Render <==> Truthy(RoleValue(storage)) && (requiredRole == "" || RoleValue(storage).value == requiredRole)
  {
    ProtectedRoute(storage.CurrentUser(), requiredRole)
  }

  function RoleValue(storage: LocalStorage): Option<string>
    reads storage
  {
    storage.CurrentUser().role
  }

  /** One segment of a child route's path: a literal, or a `:id` parameter. */
  datatype Seg = Lit(text: string) | Param

  /** A child route's path, segment by segment. */
  type Pattern = seq<Seg>

  /** A literal takes exactly its text; a parameter takes any one non-empty segment. */
  predicate SegTakes(p: Seg, s: string) {
    if p.Param? then s != "" else s == p.text
  }

  /** A child route takes the rest of a path iff the rest has one segment per pattern segment, each taken. */
  predicate ChildTakes(pattern: Pattern, rest: string) {
    var rs := Segments(rest, '/');
    |rs| == |pattern| && forall i :: 0 <= i < |pattern| ==> SegTakes(pattern[i], rs[i])
  }

  predicate AnyChildTakes(children: seq<Pattern>, rest: string) {
    exists k :: 0 <= k < |children| && ChildTakes(children[k], rest)
  }

  /** What a top-level route element is. */
  datatype Element =
    | Public(page: string)
    | Protected(requiredRole: string, children: seq<Pattern>)
    | Redirect(to: string)

  datatype Route = Route(path: string, element: Element)

  const StudentChildren: seq<Pattern> := [
    [Lit("dashboard")], [Lit("learning-path")], [Lit("activities")], [Lit("activity"), Param], [Lit("feedback")]
  ]

  const TeacherChildren: seq<Pattern> := [
    [Lit("dashboard")], [Lit("classes")], [Lit("class"), Param], [Lit("class"), Lit("edit"), Param],
    [Lit("activities")], [Lit("activity"), Param], [Lit("activity"), Lit("create")],
    [Lit("activity"), Lit("edit"), Param], [Lit("target"), Lit("create")], [Lit("targets")],
    [Lit("student"), Param], [Lit("student")]
  ]

  const DashboardChildren: seq<Pattern> := [
    [Lit("learning-path")], [Lit("activities")], [Lit("activity"), Param], [Lit("feedback")]
  ]

  /**
   * The route table: the public pages, the three guarded sections (each
   * with an index route and its declared children), and "/".
   */
  const Routes: seq<Route> := [
    Route("/login", Public("Login")),
    Route("/register", Public("Register")),
    Route("/student", Protected("STUDENT", StudentChildren)),
    Route("/teacher", Protected("TEACHER", TeacherChildren)),
    Route("/dashboard", Protected("", DashboardChildren)),
    Route("/", Redirect("/login"))
  ]

  /** Below a route's own path: "" is the path itself (or its index), anything else must be a declared child. */
  predicate RestTaken(e: Element, rest: string) {
    rest == "" || (e.Protected? && AnyChildTakes(e.children, rest))
  }

  /**
   * A route takes its own path, and, unless it is "/", its path followed by
   * '/' and a rest that the index or one of its children takes.
   */
  predicate RouteTakes(r: Route, pathname: string) {
    pathname == r.path
    || (r.path != "/" && StartsWith(pathname, r.path + "/") && RestTaken(r.element, pathname[|r.path| + 1..]))
  }

  /** The route that answers a pathname, if any: the first that takes it. */
  function Resolve(pathname: string): (r: Option<Route>)
    ensures r.Some? ==> r.value in Routes && RouteTakes(r.value, pathname)
    ensures r.None? ==> forall i :: 0 <= i < |Routes| ==> !RouteTakes(Routes[i], pathname)
  {
    FirstRoute(Routes, pathname)
  }

  function FirstRoute(routes: seq<Route>, pathname: string): (r: Option<Route>)
    ensures r.Some? ==> r.value in routes && RouteTakes(r.value, pathname)
    ensures r.None? ==> forall i :: 0 <= i < |routes| ==> !RouteTakes(routes[i], pathname)
    decreases |routes|
  {
    if |routes| == 0 then None
    else if RouteTakes(routes[0], pathname) then Some(routes[0])
    else FirstRoute(routes[1..], pathname)
  }

  /** A path a route takes begins with the route's path, and "/" takes only itself. */
  lemma TakenBeginsWithPath(r: Route, pathname: string)
    requires RouteTakes(r, pathname)
    ensures |r.path| <= |pathname| && pathname[..|r.path|] == r.path
    ensures r.path == "/" ==> pathname == "/"
  {
    if pathname != r.path {
      assert pathname[..|r.path|] == (r.path + "/")[..|r.path|];
    }
  }

  /** Which route a path can belong to, read off its second character; 6 for none. */
  function RouteKey(pathname: string): nat {
    if pathname == "/" then 5
    else if |pathname| < 2 then 6
    else if pathname[1] == 'l' then 0
    else if pathname[1] == 'r' then 1
    else if pathname[1] == 's' then 2
    else if pathname[1] == 't' then 3
    else if pathname[1] == 'd' then 4
    else 6
  }

  /** A path a route takes has that route's key. */
  lemma TakenKey(j: nat, pathname: string)
    requires j < |Routes|
    ensures RouteTakes(Routes[j], pathname) ==> RouteKey(pathname) == j
  {
    if RouteTakes(Routes[j], pathname) {
      TakenBeginsWithPath(Routes[j], pathname);
      if j < 5 {
        assert |Routes[j].path| >= 2 && Routes[j].path[0] == '/';
        assert pathname[1] == Routes[j].path[1];
      }
    }
  }

  /**
   * At most one route of the table takes a path, so answering with the
   * first one is answering with the only one, whatever order the router
   * ranks its routes in.
   */
  lemma OnlyOneRouteTakes(pathname: string, i: nat, j: nat)
    requires i < |Routes| && j < |Routes|
    requires RouteTakes(Routes[i], pathname) && RouteTakes(Routes[j], pathname)
    ensures i == j
  {
    TakenKey(i, pathname);
    TakenKey(j, pathname);
  }

  /** A path of no route's key is taken by no route. */
  lemma NoRouteBeginsWith(pathname: string)
    requires RouteKey(pathname) == 6
    ensures Resolve(pathname).None?
  {
    forall i | 0 <= i < |Routes| ensures !RouteTakes(Routes[i], pathname) {
      TakenKey(i, pathname);
    }
  }

  /** The role a path's guard demands: None for public, redirecting or unmatched paths. */
  function RequiredRoleOf(pathname: string): (role: Option<string>)
    ensures role.Some? <==> Resolve(pathname).Some? && Resolve(pathname).value.element.Protected?
    ensures role.Some? ==> role.value == Resolve(pathname).value.element.requiredRole
  {
    match Resolve(pathname)
    case None => None
    case Some(r) => if r.element.Protected? then Some(r.element.requiredRole) else None
  }

  lemma {:induction false} FirstRouteAt(routes: seq<Route>, pathname: string, k: nat)
    requires k < |routes| && RouteTakes(routes[k], pathname)
    requires forall j :: 0 <= j < k ==> !RouteTakes(routes[j], pathname)
    ensures FirstRoute(routes, pathname) == Some(routes[k])
    decreases k
  {
    if k > 0 {
      assert !RouteTakes(routes[0], pathname);
      forall j | 0 <= j < k - 1 ensures !RouteTakes(routes[1..][j], pathname) {
        assert routes[1..][j] == routes[j + 1];
      }
      FirstRouteAt(routes[1..], pathname, k - 1);
    }
  }

  /**
   * A section answers its own path followed by '/' and a rest exactly when
   * its index or one of its children takes the rest; any other such path
   * is answered by no route at all.
   */
  lemma SectionAnswers(k: nat, rest: string)
    requires 2 <= k <= 4
    ensures RestTaken(Routes[k].element, rest) ==> Resolve(Routes[k].path + "/" + rest) == Some(Routes[k])
    ensures !RestTaken(Routes[k].element, rest) ==> Resolve(Routes[k].path + "/" + rest).None?
  {
    var path := Routes[k].path;
    var p := path + "/" + rest;
    assert p[..|path| + 1] == path + "/";
    assert p[|path| + 1..] == rest;
    assert RouteTakes(Routes[k], p) <==> RestTaken(Routes[k].element, rest);
    assert RouteKey(p) == k by { assert p[1] == path[1]; }
    forall j | 0 <= j < |Routes| && j != k ensures !RouteTakes(Routes[j], p) {
      TakenKey(j, p);
    }
    if RestTaken(Routes[k].element, rest) {
      FirstRouteAt(Routes, p, k);
    }
  }

  /**
   * Under /student/ the role STUDENT is demanded exactly by the index and
   * the declared children; any other path there has no route.
   */
  lemma StudentSection(rest: string)
    ensures RequiredRoleOf("/student/" + rest) == Some("STUDENT") <==> rest == "" || AnyChildTakes(StudentChildren, rest)
    ensures !(rest == "" || AnyChildTakes(StudentChildren, rest)) ==> Resolve("/student/" + rest).None?
  {
    SectionAnswers(2, rest);
    assert Routes[2].path + "/" + rest == "/student/" + rest;
  }

  /**
   * Under /teacher/ the role TEACHER is demanded exactly by the index and
   * the declared children; any other path there has no route.
   */
  lemma TeacherSection(rest: string)
    ensures RequiredRoleOf("/teacher/" + rest) == Some("TEACHER") <==> rest == "" || AnyChildTakes(TeacherChildren, rest)
    ensures !(rest == "" || AnyChildTakes(TeacherChildren, rest)) ==> Resolve("/teacher/" + rest).None?
  {
    SectionAnswers(3, rest);
    assert Routes[3].path + "/" + rest == "/teacher/" + rest;
  }

  /**
   * Under /dashboard/ only a non-empty role is demanded, exactly by the
   * index and the declared children; any other path there has no route.
   */
  lemma DashboardSection(rest: string)
    ensures RequiredRoleOf("/dashboard/" + rest) == Some("") <==> rest == "" || AnyChildTakes(DashboardChildren, rest)
    ensures !(rest == "" || AnyChildTakes(DashboardChildren, rest)) ==> Resolve("/dashboard/" + rest).None?
  {
    SectionAnswers(4, rest);
    assert Routes[4].path + "/" + rest == "/dashboard/" + rest;
  }

  /** A segment without '/' is taken by a child naming it. */
  lemma SingleChild(s: string)
    requires '/' !in s
    ensures ChildTakes([Lit(s)], s)
  {
    SegmentsOfFree(s, '/');
  }

  /** A one-segment child at a known position takes that segment. */
  lemma SingleChildAt(children: seq<Pattern>, k: nat, s: string)
    requires k < |children| && children[k] == [Lit(s)] && '/' !in s
    ensures AnyChildTakes(children, s)
  {
    SingleChild(s);
  }

  /** "dashboard", which the login page lands on, is a child of the student and teacher sections. */
  lemma DashboardChild(s: string)
    requires s == "dashboard"
    ensures AnyChildTakes(StudentChildren, s) && AnyChildTakes(TeacherChildren, s)
  {
    assert '/' !in s;
    SingleChildAt(StudentChildren, 0, s);
    SingleChildAt(TeacherChildren, 0, s);
  }

  /** "activities" is the one-segment child at its own position in each section. */
  lemma ActivitiesChildOf(children: seq<Pattern>, s: string)
    requires children == StudentChildren || children == TeacherChildren || children == DashboardChildren
    requires s == "activities"
    ensures AnyChildTakes(children, s)
  {
    assert '/' !in s;
    if children == StudentChildren {
      SingleChildAt(children, 2, s);
    } else if children == TeacherChildren {
      SingleChildAt(children, 4, s);
    } else {
      SingleChildAt(children, 1, s);
    }
  }

  /** "activities", the detail page's way back, is a child of all three sections. */
  lemma ActivitiesChild(s: string)
    requires s == "activities"
    ensures AnyChildTakes(StudentChildren, s) && AnyChildTakes(TeacherChildren, s) && AnyChildTakes(DashboardChildren, s)
  {
    ActivitiesChildOf(StudentChildren, s);
    ActivitiesChildOf(TeacherChildren, s);
    ActivitiesChildOf(DashboardChildren, s);
  }

  /** `activity/:id` takes "activity/" and any non-empty id without '/', in all three sections. */
  lemma ActivityChild(id: string)
    requires id != "" && '/' !in id
    ensures AnyChildTakes(StudentChildren, "activity/" + id)
    ensures AnyChildTakes(TeacherChildren, "activity/" + id)
    ensures AnyChildTakes(DashboardChildren, "activity/" + id)
  {
    assert "activity/" + id == "activity" + ['/'] + id;
    SegmentsAppend("activity", '/', id);
    SegmentsOfFree(id, '/');
    assert Segments("activity/" + id, '/') == ["activity", id];
    assert ChildTakes(StudentChildren[3], "activity/" + id);
    assert ChildTakes(TeacherChildren[5], "activity/" + id);
    assert ChildTakes(DashboardChildren[2], "activity/" + id);
  }

  /** On a segment without '/', a child takes it iff the child is that one segment. */
  lemma ChildTakesSingle(pattern: Pattern, s: string)
    requires '/' !in s
    ensures ChildTakes(pattern, s) <==> |pattern| == 1 && SegTakes(pattern[0], s)
  {
    SegmentsOfFree(s, '/');
  }

  /** A single segment that no child names, such as "profile", is not taken in the student or teacher section. */
  lemma UndeclaredSingleSegment(s: string)
    requires s != "" && '/' !in s
    requires s !in {"dashboard", "learning-path", "activities", "feedback", "classes", "targets", "student"}
    ensures !AnyChildTakes(StudentChildren, s) && !AnyChildTakes(TeacherChildren, s)
  {
    forall k | 0 <= k < |StudentChildren| ensures !ChildTakes(StudentChildren[k], s) {
      ChildTakesSingle(StudentChildren[k], s);
    }
    forall k | 0 <= k < |TeacherChildren| ensures !ChildTakes(TeacherChildren[k], s) {
      ChildTakesSingle(TeacherChildren[k], s);
    }
  }

  /** "/" itself only redirects to the login page. */
  lemma RootRedirects()
    ensures Resolve("/") == Some(Route("/", Redirect("/login")))
  {
    forall j | 0 <= j < 5 ensures !RouteTakes(Routes[j], "/") {
      assert |Routes[j].path| > 1;
    }
    FirstRouteAt(Routes, "/", 5);
  }

  /** No route takes the administrator's pages: there is no /admin section in the table. */
  lemma NoAdminSection(rest: string)
    ensures Resolve("/admin/" + rest).None?
  {
    var a := "/admin/" + rest;
    assert a[1] == 'a' && a != "/";
    NoRouteBeginsWith(a);
  }
}
