/**
 * frontend/src/components/student/ActivityDetail.tsx: one activity, with
 * the same role prefixes as the list. Its buttons follow rules of their own,
 * and each action posts and then fetches the activity again from the same
 * prefix.
 */
module ActivityDetailPage {
  import opened Wrappers
  import opened Scripts
  import opened Browser
  import opened StudentActivityList
  import AppRoutes

  /**
   * The register button: an upcoming activity with no participation at all,
   * for a student; stricter than the list's, which also offers it after a
   * cancellation.
   */
  predicate DetailShowRegister(c: Card, role: string)
    ensures DetailShowRegister(c, role) ==> ShowRegister(c) && role == "STUDENT"
    ensures DetailShowRegister(c, role) ==> c.participation != Some("CANCELLED")
  {
    c.status == "UPCOMING" && !Truthy(c.participation) && role == "STUDENT"
  }

  /** `currentParticipants >= maxParticipants ? '报名已满' : '立即报名'` */
  function DetailRegisterCaption(c: Card): (caption: string)
    ensures RegisterDisabled(c) <==> caption == "报名已满"
  {
    if RegisterDisabled(c) then "报名已满" else "立即报名"
  }

  /**
   * The cancel button: any activity the user is registered for, whatever
   * its status, as on the "my" tab; never beside the register button.
   */
  predicate DetailShowCancel(c: Card)
    ensures DetailShowCancel(c) <==> MyShowCancel(c)
    ensures DetailShowCancel(c) ==> forall role :: !DetailShowRegister(c, role)
  {
    c.participation == Some("REGISTERED")
  }

  /**
   * The complete button sits inside the cancel group and also needs the
   * status ENDED, so it shows exactly when the list's does.
   */
  predicate DetailShowComplete(c: Card)
    ensures DetailShowComplete(c) ==> DetailShowCancel(c)
    ensures DetailShowComplete(c) <==> ShowComplete(c)
  {
    DetailShowCancel(c) && c.status == "ENDED"
  }

  /**
   * The detail page and the list disagree on a cancelled participation:
   * the list offers to register again, the detail page offers nothing.
   */
  lemma CancelledDiffers(c: Card, role: string)
    requires c.status == "UPCOMING" && c.participation == Some("CANCELLED")
    ensures ShowRegister(c) && MyShowRegister(c)
    ensures !DetailShowRegister(c, role) && !DetailShowCancel(c)
  {
  }

  /** On an ongoing registered activity only the detail page and the "my" tab offer to cancel. */
  lemma OngoingCancelDiffers(c: Card)
    requires c.status == "ONGOING" && c.participation == Some("REGISTERED")
    ensures DetailShowCancel(c) && MyShowCancel(c) && !ShowCancel(c)
  {
  }

  /** The back button's target: the activity list of the role's section. */
  function BackTarget(user: StoredUser): (target: string)
    ensures target == ListBasePath(user) + "/activities"
  {
    ListBasePath(user) + "/activities"
  }

  /** The back button of a student leads into the student section, whose guard admits them. */
  lemma StudentBackIsGuarded(user: StoredUser)
    requires user.role == Some("STUDENT")
    ensures AppRoutes.RequiredRoleOf(BackTarget(user)) == Some("STUDENT")
    ensures AppRoutes.ProtectedRoute(user, "STUDENT") == AppRoutes.Render
  {
    var rest := BackTarget(user)[9..];
    assert BackTarget(user) == "/student/" + rest;
    assert rest == "activities";
    AppRoutes.ActivitiesChild(rest);
    AppRoutes.StudentSection(rest);
  }

  /** A request the page sends. */
  datatype Request = Get(url: string) | Post(url: string)

  /** The page's state: the activity shown, and whether it is loading. */
  class DetailPage {
    var activity: Option<Card>
    var loading: bool

    constructor ()
      ensures activity.None? && !loading
    {
      activity := None;
      loading := false;
    }

    /**
     * `handleRegister`, `handleCancel` and `handleComplete`: a POST to the
     * action under the role's prefix, then, if it succeeded, a GET of the
     * activity from that same prefix, whose answer replaces the one shown.
     * A failure of either request shows the action's error message, even
     * after the success message of the POST.
     */
    method Act(user: StoredUser, id: string, action: string, posted: bool, fetched: Option<Card>)
      returns (requests: seq<Request>, toasts: seq<string>)
      requires action in {"register", "cancel", "complete"}
      modifies this
      ensures !loading
      ensures |requests| >= 1 && requests[0] == Post(ApiPrefix(user) + "/activities/" + id + "/" + action)
      ensures !posted ==> |requests| == 1 && toasts == [ActionFailure(action)] && activity == old(activity)
      ensures posted ==>
        requests == [requests[0], Get(ApiPrefix(user) + "/activities/" + id)]
      ensures posted && fetched.Some? ==> activity == fetched && toasts == [ActionSuccess(action)]
      ensures posted && fetched.None? ==>
        activity == old(activity) && toasts == [ActionSuccess(action), ActionFailure(action)]
    {
      loading := true;
      var prefix := ApiPrefix(user);
      requests := [Post(prefix + "/activities/" + id + "/" + action)];
      if !posted {
        toasts := [ActionFailure(action)];
        loading := false;
        return;
      }
      toasts := [ActionSuccess(action)];
      requests := requests + [Get(prefix + "/activities/" + id)];
      if fetched.Some? {
        activity := fetched;
      } else {
        toasts := toasts + [ActionFailure(action)];
      }
      loading := false;
    }
  }

  function ActionSuccess(action: string): string {
    if action == "register" then "报名成功！"
    else if action == "cancel" then "取消报名成功！"
    else "活动已完成！"
  }

  function ActionFailure(action: string): string {
    if action == "register" then "报名失败，请重试"
    else if action == "cancel" then "取消报名失败，请重试"
    else "操作失败，请重试"
  }
}
