/**
 * frontend/src/components/student/ActivityList/StudentActivityList.tsx:
 * the activity list of a student or teacher. The role of the stored user
 * chooses the API prefix and the link base, a type filter or the "my" tab
 * chooses the endpoint, and a successful register or cancel patches the
 * shown list before it is fetched again.
 */
module StudentActivityList {
  import opened Wrappers
  import opened JavaStrings
  import opened Scripts
  import opened Browser
  import AppRoutes
  import Activities

  /** One activity as the list holds it; a number the page does arithmetic on is an `int`. */
  datatype Card = Card(
    id: int,
    title: string,
    kind: string,
    status: string,
    participation: Option<string>,
    maxParticipants: int,
    currentParticipants: int)

  /** `getApiPrefix`, from `user.role || ''`. */
  function ApiPrefix(user: StoredUser): (prefix: string)
    ensures RoleOf(user) == "STUDENT" ==> prefix == "/api/student"
    ensures RoleOf(user) == "TEACHER" ==> prefix == "/api/teacher"
    ensures RoleOf(user) != "STUDENT" && RoleOf(user) != "TEACHER" ==> prefix == "/api"
  {
    var role := RoleOf(user);
    if role == "STUDENT" then "/api/student"
    else if role == "TEACHER" then "/api/teacher"
    else "/api"
  }

  /** `getBasePath`: the section the page's links go to; any other role goes under /dashboard. */
  function ListBasePath(user: StoredUser): (base: string)
    ensures RoleOf(user) == "STUDENT" ==> base == "/student"
    ensures RoleOf(user) == "TEACHER" ==> base == "/teacher"
    ensures RoleOf(user) != "STUDENT" && RoleOf(user) != "TEACHER" ==> base == "/dashboard"
  {
    var role := RoleOf(user);
    if role == "STUDENT" then "/student"
    else if role == "TEACHER" then "/teacher"
    else "/dashboard"
  }

  /** The link of an activity's title. */
  function ActivityLink(user: StoredUser, id: int): string {
    ListBasePath(user) + "/activity/" + LongText(id)
  }

  /** An id's decimal text is one non-empty path segment. */
  lemma IdTextIsSegment(id: int)
    ensures LongText(id) != "" && '/' !in LongText(id)
  {
    var m: nat := if id < 0 then -id else id;
    var d := NatText(m);
    NatTextDigits(m);
    assert forall i :: 0 <= i < |d| ==> d[i] != '/';
    if id < 0 {
      assert LongText(id) == "-" + d;
    } else {
      assert LongText(id) == d;
    }
  }

  /**
   * The link of every activity falls under a guarded section: the role's
   * own section for a student or teacher, the open /dashboard one otherwise.
   */
  lemma ActivityLinkIsGuarded(user: StoredUser, id: int)
    ensures RoleOf(user) == "STUDENT" ==> AppRoutes.RequiredRoleOf(ActivityLink(user, id)) == Some("STUDENT")
    ensures RoleOf(user) == "TEACHER" ==> AppRoutes.RequiredRoleOf(ActivityLink(user, id)) == Some("TEACHER")
    ensures RoleOf(user) != "STUDENT" && RoleOf(user) != "TEACHER" ==>
      AppRoutes.RequiredRoleOf(ActivityLink(user, id)) == Some("")
  {
    IdTextIsSegment(id);
    AppRoutes.ActivityChild(LongText(id));
    var rest := "activity/" + LongText(id);
    var role := RoleOf(user);
    if role == "STUDENT" {
      assert ActivityLink(user, id) == "/student/" + rest;
      AppRoutes.StudentSection(rest);
    } else if role == "TEACHER" {
      assert ActivityLink(user, id) == "/teacher/" + rest;
      AppRoutes.TeacherSection(rest);
    } else {
      assert ActivityLink(user, id) == "/dashboard/" + rest;
      AppRoutes.DashboardSection(rest);
    }
  }

  /** The list request: a set type filter wins over the tab; the "my" tab has its own endpoint. */
  function ListEndpoint(prefix: string, filterType: Option<string>, tab: string): (url: string)
    ensures Truthy(filterType) ==> url == prefix + "/activities/type/" + filterType.value
    ensures !Truthy(filterType) && tab == "my" ==> url == prefix + "/activities/my"
    ensures !Truthy(filterType) && tab != "my" ==> url == prefix + "/activities"
  {
    if Truthy(filterType) then prefix + "/activities/type/" + filterType.value
    else if tab == "my" then prefix + "/activities/my"
    else prefix + "/activities"
  }

  /**
   * The mount check: a user without a truthy id or role, or with a role
   * other than STUDENT and TEACHER, gets an error and nothing is fetched.
   */
  function AccessError(user: StoredUser): (error: Option<string>)
    ensures error.None? <==> TruthyNumber(user.id) && user.role in {Some("STUDENT"), Some("TEACHER")}
    ensures (!TruthyNumber(user.id) || !Truthy(user.role)) ==> error == Some("用户未登录或权限不足")
    ensures TruthyNumber(user.id) && Truthy(user.role) && user.role !in {Some("STUDENT"), Some("TEACHER")} ==>
      error == Some("没有访问权限")
  {
    if !TruthyNumber(user.id) || !Truthy(user.role) then Some("用户未登录或权限不足")
    else if user.role.value != "STUDENT" && user.role.value != "TEACHER" then Some("没有访问权限")
    else None
  }

  /** A user the page lets in always talks to a role prefix, never to the bare /api. */
  lemma AdmittedUserHasRolePrefix(user: StoredUser)
    requires AccessError(user).None?
    ensures ApiPrefix(user) in {"/api/student", "/api/teacher"}
    ensures ListBasePath(user) != "/dashboard"
  {
  }

  /** The list after a successful registration: only the activity with that id changes. */
  function MarkRegistered(cards: seq<Card>, id: int): (r: seq<Card>)
    ensures |r| == |cards|
    ensures forall i :: 0 <= i < |cards| && cards[i].id == id ==>
      r[i] == cards[i].(participation := Some("REGISTERED"), currentParticipants := cards[i].currentParticipants + 1)
    ensures forall i :: 0 <= i < |cards| && cards[i].id != id ==> r[i] == cards[i]
    decreases |cards|
  {
    if |cards| == 0 then []
    else
      var c := cards[0];
      var head := if c.id == id then c.(participation := Some("REGISTERED"), currentParticipants := c.currentParticipants + 1) else c;
      [head] + MarkRegistered(cards[1..], id)
  }

  /** The list after a successful cancellation; the count never goes below zero. */
  function MarkCancelled(cards: seq<Card>, id: int): (r: seq<Card>)
    ensures |r| == |cards|
    ensures forall i :: 0 <= i < |cards| && cards[i].id == id ==>
      r[i] == cards[i].(participation := Some("CANCELLED"), currentParticipants := Max0(cards[i].currentParticipants - 1))
    ensures forall i :: 0 <= i < |cards| && cards[i].id != id ==> r[i] == cards[i]
    decreases |cards|
  {
    if |cards| == 0 then []
    else
      var c := cards[0];
      var head := if c.id == id then c.(participation := Some("CANCELLED"), currentParticipants := Max0(c.currentParticipants - 1)) else c;
      [head] + MarkCancelled(cards[1..], id)
  }

  /** `Math.max(0, n)` */
  function Max0(n: int): (m: int)
    ensures m >= 0 && m >= n && (m == n || m == 0)
  {
    if n < 0 then 0 else n
  }

  /**
   * Registering and then cancelling the same activity restores every count
   * that was not negative, and leaves that activity marked CANCELLED.
   */
  lemma CancelUndoesRegisterCount(cards: seq<Card>, id: int)
    requires forall i :: 0 <= i < |cards| ==> cards[i].currentParticipants >= 0
    ensures forall i :: 0 <= i < |cards| ==>
      MarkCancelled(MarkRegistered(cards, id), id)[i].currentParticipants == cards[i].currentParticipants
    ensures forall i :: 0 <= i < |cards| ==>
      MarkCancelled(MarkRegistered(cards, id), id)[i].participation ==
        (if cards[i].id == id then Some("CANCELLED") else cards[i].participation)
  {
  }

  /** `filteredActivities`: a set type filter drops other types; the "my" tab drops activities without a participation. */
  predicate Listed(c: Card, filterType: Option<string>, tab: string) {
    !(Truthy(filterType) && c.kind != filterType.value) && (tab != "my" || c.participation.Some?)
  }

  function FilteredActivities(cards: seq<Card>, filterType: Option<string>, tab: string): (r: seq<Card>)
    ensures forall i :: 0 <= i < |r| ==> r[i] in cards && Listed(r[i], filterType, tab)
    ensures forall i :: 0 <= i < |cards| && Listed(cards[i], filterType, tab) ==> cards[i] in r
  {
    Filter(cards, (c: Card) => Listed(c, filterType, tab))
  }

  /** With no type filter the "all" tab shows the whole list, in order. */
  lemma AllTabShowsEverything(cards: seq<Card>)
    ensures FilteredActivities(cards, None, "all") == cards
  {
    FilterKeepsAll(cards, (c: Card) => Listed(c, None, "all"));
  }

  /** The "my" tab's list: the filtered list again, keeping truthy participations. */
  function MyTabList(cards: seq<Card>, filterType: Option<string>): (r: seq<Card>)
    ensures forall i :: 0 <= i < |r| ==> r[i] in cards && Listed(r[i], filterType, "my") && Truthy(r[i].participation)
    ensures forall i :: 0 <= i < |cards| && Listed(cards[i], filterType, "my") && Truthy(cards[i].participation) ==>
      cards[i] in r
  {
    var listed := FilteredActivities(cards, filterType, "my");
    var r := Filter(listed, (c: Card) => Truthy(c.participation));
    forall i | 0 <= i < |cards| && Listed(cards[i], filterType, "my") && Truthy(cards[i].participation)
      ensures cards[i] in r
    {
      var j :| 0 <= j < |listed| && listed[j] == cards[i];
    }
    r
  }

  /**
   * The register button of the "all" tab: an upcoming activity with no or a
   * cancelled participation; never for a registered or completed one.
   */
  predicate ShowRegister(c: Card)
    ensures ShowRegister(c) ==> c.status == "UPCOMING"
    ensures ShowRegister(c) ==> c.participation != Some("REGISTERED") && c.participation != Some("COMPLETED")
    ensures c.status == "UPCOMING" && c.participation == Some("CANCELLED") ==> ShowRegister(c)
  {
    c.status == "UPCOMING" && (!Truthy(c.participation) || c.participation == Some("CANCELLED"))
  }

  predicate RegisterDisabled(c: Card) {
    c.currentParticipants >= c.maxParticipants
  }

  function RegisterCaption(c: Card): (caption: string)
    ensures RegisterDisabled(c) ==> caption == "报名已满"
    ensures !RegisterDisabled(c) ==> caption == (if c.participation == Some("CANCELLED") then "重新报名" else "立即报名")
  {
    if RegisterDisabled(c) then "报名已满"
    else if c.participation == Some("CANCELLED") then "重新报名" else "立即报名"
  }

  /** The cancel button of the "all" tab: an upcoming activity the user is registered for, never beside register. */
  predicate ShowCancel(c: Card)
    ensures ShowCancel(c) ==> c.status == "UPCOMING" && !ShowRegister(c)
  {
    c.status == "UPCOMING" && c.participation == Some("REGISTERED")
  }

  /** The complete button: an ENDED activity the user is registered for, never beside the other two. */
  predicate ShowComplete(c: Card)
    ensures ShowComplete(c) ==> c.participation == Some("REGISTERED")
    ensures ShowComplete(c) ==> !ShowRegister(c) && !ShowCancel(c)
  {
    c.status == "ENDED" && c.participation == Some("REGISTERED")
  }

  /** The "my" tab's buttons: cancel whatever the status; register again only when upcoming. */
  predicate MyShowCancel(c: Card) {
    c.participation == Some("REGISTERED")
  }

  predicate MyShowRegister(c: Card) {
    c.participation == Some("CANCELLED") && c.status == "UPCOMING"
  }

  /** A card never offers register and cancel together, and registering swaps the one for the other. */
  lemma RegisterSwapsButtons(cards: seq<Card>, id: int, i: nat)
    requires i < |cards| && cards[i].id == id && ShowRegister(cards[i])
    ensures !(ShowRegister(cards[i]) && ShowCancel(cards[i]))
    ensures ShowCancel(MarkRegistered(cards, id)[i]) && !ShowRegister(MarkRegistered(cards, id)[i])
  {
  }

  /**
   * The complete button waits for the status ENDED, which the backend's
   * activity statuses never take: no activity sent by it offers the button.
   */
  lemma CompleteNeverOffered(c: Card, s: Activities.ActivityStatus)
    requires c.status == Activities.StatusName(s)
    ensures !ShowComplete(c) && !(c.participation == Some("REGISTERED") && c.status == "ENDED")
  {
  }

  /** How a request ended: it succeeded, or it failed with the server's message, if any. */
  datatype Outcome = Succeeded | Failed(message: Option<string>)

  /** `error.response?.data?.message || default` */
  function FailureText(message: Option<string>, default: string): (t: string)
    ensures Truthy(message) ==> t == message.value
    ensures !Truthy(message) ==> t == default
  {
    if Truthy(message) then message.value else default
  }

  /** The page's state: the activities held, the tab, the type filter and the error shown. */
  class ListPage {
    var activities: seq<Card>
    var activeTab: string
    var filterType: Option<string>
    var error: Option<string>

    constructor ()
      ensures activities == [] && activeTab == "all" && filterType.None? && error.None?
    {
      activities := [];
      activeTab := "all";
      filterType := None;
      error := None;
    }

    /** The filtered list the "all" tab shows. */
    function Shown(): seq<Card>
      reads this
    {
      FilteredActivities(activities, filterType, activeTab)
    }

    /**
     * The effect run on mount and on every tab or filter change: the
     * access check, then the list request; a failure empties the list.
     * `serverMessage` and `errorMessage` are the failure's two texts.
     */
    method Load(user: StoredUser, reply: Result<seq<Card>, (Option<string>, Option<string>)>)
      returns (request: Option<string>)
      modifies this
      ensures activeTab == old(activeTab) && filterType == old(filterType)
      ensures AccessError(user).Some? ==>
        request.None? && error == AccessError(user) && activities == old(activities)
      ensures AccessError(user).None? ==> request == Some(ListEndpoint(ApiPrefix(user), filterType, activeTab))
      ensures AccessError(user).None? && reply.Ok? ==> activities == reply.value && error.None?
      ensures AccessError(user).None? && reply.Err? ==>
        activities == [] &&
        error == Some(FailureText(reply.error.0, FailureText(reply.error.1, "获取活动列表失败，请重新登录后重试")))
    {
      var denied := AccessError(user);
      if denied.Some? {
        error := denied;
        return None;
      }
      error := None;
      request := Some(ListEndpoint(ApiPrefix(user), filterType, activeTab));
      if reply.Ok? {
        activities := reply.value;
        error := None;
      } else {
        error := Some(FailureText(reply.error.0, FailureText(reply.error.1, "获取活动列表失败，请重新登录后重试")));
        activities := [];
      }
    }

    /**
     * `handleRegister`: the POST goes to the role's prefix; on success the
     * activity is marked registered and counted and the list is fetched
     * again, on failure only a message is shown.
     */
    method HandleRegister(user: StoredUser, id: int, outcome: Outcome)
      returns (post: string, toast: string, refetch: Option<string>)
      modifies this
      ensures post == ApiPrefix(user) + "/activities/" + LongText(id) + "/register"
      ensures activeTab == old(activeTab) && filterType == old(filterType) && error == old(error)
      ensures outcome.Succeeded? ==>
        activities == MarkRegistered(old(activities), id) && toast == "报名成功！" &&
        refetch == Some(ListEndpoint(ApiPrefix(user), filterType, activeTab))
      ensures outcome.Failed? ==>
        activities == old(activities) && refetch.None? && toast == FailureText(outcome.message, "报名失败，请重试")
    {
      post := ApiPrefix(user) + "/activities/" + LongText(id) + "/register";
      if outcome.Failed? {
        return post, FailureText(outcome.message, "报名失败，请重试"), None;
      }
      activities := MarkRegistered(activities, id);
      toast := "报名成功！";
      refetch := Some(ListEndpoint(ApiPrefix(user), filterType, activeTab));
    }

    /** `handleCancel`, the same with the cancellation's marking and messages. */
    method HandleCancel(user: StoredUser, id: int, outcome: Outcome)
      returns (post: string, toast: string, refetch: Option<string>)
      modifies this
      ensures post == ApiPrefix(user) + "/activities/" + LongText(id) + "/cancel"
      ensures activeTab == old(activeTab) && filterType == old(filterType) && error == old(error)
      ensures outcome.Succeeded? ==>
        activities == MarkCancelled(old(activities), id) && toast == "取消报名成功！" &&
        refetch == Some(ListEndpoint(ApiPrefix(user), filterType, activeTab))
      ensures outcome.Failed? ==>
        activities == old(activities) && refetch.None? && toast == FailureText(outcome.message, "取消报名失败，请重试")
    {
      post := ApiPrefix(user) + "/activities/" + LongText(id) + "/cancel";
      if outcome.Failed? {
        return post, FailureText(outcome.message, "取消报名失败，请重试"), None;
      }
      activities := MarkCancelled(activities, id);
      toast := "取消报名成功！";
      refetch := Some(ListEndpoint(ApiPrefix(user), filterType, activeTab));
    }

    /** `handleComplete`: no local change, only a message and, on success, a new fetch. */
    method HandleComplete(user: StoredUser, id: int, outcome: Outcome)
      returns (post: string, toast: string, refetch: Option<string>)
      ensures post == ApiPrefix(user) + "/activities/" + LongText(id) + "/complete"
      ensures outcome.Succeeded? ==>
        toast == "活动已完成！" &&
        refetch == Some(ListEndpoint(ApiPrefix(user), filterType, activeTab))
      ensures outcome.Failed? ==> refetch.None? && toast == FailureText(outcome.message, "操作失败，请重试")
    {
      post := ApiPrefix(user) + "/activities/" + LongText(id) + "/complete";
      if outcome.Failed? {
        return post, FailureText(outcome.message, "操作失败，请重试"), None;
      }
      return post, "活动已完成！", Some(ListEndpoint(ApiPrefix(user), filterType, activeTab));
    }
  }
}
