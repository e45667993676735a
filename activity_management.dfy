/**
 * frontend/src/components/teacher/ActivityManagement.tsx: the teacher's
 * activity table. It is filtered by title and by a status tab; its status
 * badge expects lower-case statuses; a deletion refreshes the list only on
 * a confirmed deletion or an error; the creation dialog posts the form's
 * values without the time range and the attachments field, with the
 * picked files as parts of their own.
 */
module ActivityManagement {
  import opened Wrappers
  import opened Scripts
  import Activities

  datatype ManagedActivity = ManagedActivity(
    id: nat, title: string, kind: string, location: string,
    startTime: string, endTime: string, status: string,
    maxParticipants: int, currentParticipants: int)

  /** The tab test: 'all' admits every status, the others one status each. */
  predicate MatchesTab(tab: string, status: string) {
    tab == "all"
    || (tab == "upcoming" && status == "UPCOMING")
    || (tab == "ongoing" && status == "ONGOING")
    || (tab == "completed" && status == "COMPLETED")
  }

  predicate Shown(lower: string -> string, a: ManagedActivity, search: string, tab: string) {
    IncludesIgnoringCase(lower, a.title, search) && MatchesTab(tab, a.status)
  }

  /** `filteredActivities`: the activities whose title matches the search and whose status matches the tab. */
  function FilteredActivities(lower: string -> string, activities: seq<ManagedActivity>, search: string, tab: string)
    : (r: seq<ManagedActivity>)
    ensures forall i :: 0 <= i < |r| ==>
      r[i] in activities && IncludesIgnoringCase(lower, r[i].title, search) && MatchesTab(tab, r[i].status)
    ensures forall i :: 0 <= i < |activities| ==>
      (IncludesIgnoringCase(lower, activities[i].title, search) && MatchesTab(tab, activities[i].status)
       ==> activities[i] in r)
  {
    Filter(activities, (a: ManagedActivity) => Shown(lower, a, search, tab))
  }

  /** The 'all' tab with an empty search shows the whole list, in order. */
  lemma AllTabEmptySearchKeepsAll(lower: string -> string, activities: seq<ManagedActivity>)
    requires lower("") == ""
    ensures FilteredActivities(lower, activities, "", "all") == activities
  {
    forall i | 0 <= i < |activities| ensures Shown(lower, activities[i], "", "all") {
      EmptySearchMatches(lower, activities[i].title);
    }
    FilterKeepsAll(activities, (a: ManagedActivity) => Shown(lower, a, "", "all"));
  }

  /** A status tab shows exactly the status it names; no activity appears under two status tabs. */
  lemma StatusTabsAreDisjoint(status: string)
    ensures MatchesTab("upcoming", status) <==> status == "UPCOMING"
    ensures MatchesTab("ongoing", status) <==> status == "ONGOING"
    ensures MatchesTab("completed", status) <==> status == "COMPLETED"
    ensures !(MatchesTab("upcoming", status) && MatchesTab("ongoing", status))
    ensures !(MatchesTab("ongoing", status) && MatchesTab("completed", status))
    ensures !(MatchesTab("upcoming", status) && MatchesTab("completed", status))
  {
  }

  /** Any tab other than the four shows nothing. */
  lemma UnknownTabShowsNothing(lower: string -> string, activities: seq<ManagedActivity>, search: string, tab: string)
    requires tab !in {"all", "upcoming", "ongoing", "completed"}
    ensures FilteredActivities(lower, activities, search, tab) == []
  {
    FilterKeepsNone(activities, (a: ManagedActivity) => Shown(lower, a, search, tab));
  }

  /** The status column: lower-case statuses only; every other value has the default badge with no text. */
  function StatusBadge(status: string): (b: Label)
    ensures b.text != "" <==> status in {"upcoming", "ongoing", "completed"}
    ensures status == "upcoming" ==> b == Label("warning", "即将开始")
    ensures status == "ongoing" ==> b == Label("processing", "进行中")
    ensures status == "completed" ==> b == Label("success", "已结束")
    ensures status !in {"upcoming", "ongoing", "completed"} ==> b == Label("default", "")
  {
    if status == "upcoming" then Label("warning", "即将开始")
    else if status == "ongoing" then Label("processing", "进行中")
    else if status == "completed" then Label("success", "已结束")
    else Label("default", "")
  }

  /** Every status the backend sends is upper-case, so its badge has no text. */
  lemma BackendStatusHasNoBadgeText(s: Activities.ActivityStatus)
    ensures StatusBadge(Activities.StatusName(s)).text == ""
  {
  }

  /** The type column: the three known types get a label and a colour; any other is shown as is, in blue. */
  function TypeTag(kind: string): (b: Label)
    ensures kind == "COMPETITION" ==> b == Label("geekblue", "竞赛")
    ensures kind == "VOLUNTEER" ==> b == Label("green", "志愿服务")
    ensures kind == "LECTURE" ==> b == Label("purple", "讲座")
    ensures kind !in {"COMPETITION", "VOLUNTEER", "LECTURE"} ==> b == Label("blue", kind)
  {
    if kind == "COMPETITION" then Label("geekblue", "竞赛")
    else if kind == "VOLUNTEER" then Label("green", "志愿服务")
    else if kind == "LECTURE" then Label("purple", "讲座")
    else Label("blue", kind)
  }

  /** The answer to the DELETE: a reply whose `deleted` may be truthy, or an error. */
  datatype DeleteReply = Answered(deleted: bool) | Threw

  /**
   * The confirmation handler of `handleDeleteActivity`: a truthy `deleted`
   * shows success and refreshes; a reply without it does nothing; an error
   * shows the failure and refreshes anyway.
   */
  function DeleteOutcome(reply: DeleteReply): (r: (Option<string>, bool))
    ensures r.1 <==> (reply.Threw? || reply.deleted)
    ensures reply == Answered(true) ==> r.0 == Some("活动已成功删除")
    ensures reply == Answered(false) ==> r.0.None?
    ensures reply.Threw? ==> r.0 == Some("删除失败，请重试")
  {
    match reply
    case Answered(deleted) => if deleted then (Some("活动已成功删除"), true) else (None, false)
    case Threw => (Some("删除失败，请重试"), true)
  }

  /** A refresh follows every deletion except one the reply does not confirm. */
  lemma OnlyUnconfirmedDeleteKeepsList(reply: DeleteReply)
    ensures !DeleteOutcome(reply).1 <==> reply == Answered(false)
  {
  }

  /** A value of the creation form: text, a time range already formatted, an upload list, or a number. */
  datatype FieldValue = Text(s: string) | Moments(formatted: seq<string>) | Files(names: seq<string>) | Number(n: int)

  /** A file of the upload list; `beforeUpload` returns false, so each keeps its `originFileObj`. */
  datatype UploadFile = UploadFile(name: string, originFileObj: Option<string>)

  datatype Part = ActivityPart(data: map<string, FieldValue>) | AttachmentPart(file: string)

  /** The time range as the form holds it: there, a range, and with both ends. */
  predicate HasRange(values: map<string, FieldValue>) {
    "timeRange" in values && values["timeRange"].Moments? && |values["timeRange"].formatted| >= 2
  }

  /** The files with an `originFileObj`, in the order of the list. */
  function Attachments(fileList: seq<UploadFile>): (r: seq<string>)
    ensures |r| <= |fileList|
    ensures forall i :: 0 <= i < |fileList| && fileList[i].originFileObj.Some? ==>
      fileList[i].originFileObj.value in r
    ensures forall i :: 0 <= i < |r| ==>
      exists j :: 0 <= j < |fileList| && fileList[j].originFileObj == Some(r[i])
    decreases |fileList|
  {
    if |fileList| == 0 then []
    else
      var rest := Attachments(fileList[1..]);
      assert forall i :: 1 <= i < |fileList| ==> fileList[i] == fileList[1..][i - 1];
      match fileList[0].originFileObj
      case Some(f) => [f] + rest
      case None => rest
  }

  /**
   * The activity part of `onFinish`: the values with startTime and endTime
   * taken from the range and timeRange and attachments deleted. A missing
   * range, or one without both ends, throws, which the handler reports.
   */
  method ActivityData(values: map<string, FieldValue>) returns (r: Option<map<string, FieldValue>>)
    ensures r.None? <==> !HasRange(values)
    ensures r.Some? ==>
      r.value.Keys == (values.Keys + {"startTime", "endTime"}) - {"timeRange", "attachments"}
    ensures r.Some? ==>
      r.value["startTime"] == Text(values["timeRange"].formatted[0])
      && r.value["endTime"] == Text(values["timeRange"].formatted[1])
    ensures r.Some? ==> forall k :: k in values && k !in {"startTime", "endTime", "timeRange", "attachments"} ==>
      r.value[k] == values[k]
  {
    if !HasRange(values) {
      return None;
    }
    var range := values["timeRange"].formatted;
    var data := values;
    data := data["startTime" := Text(range[0])];
    data := data["endTime" := Text(range[1])];
    data := data - {"timeRange"};
    data := data - {"attachments"};
    return Some(data);
  }

  datatype Request = CreateActivity(url: string, parts: seq<Part>)

  /** The page's state: the list, the tab, the search and the creation dialog. */
  class ManagementPage {
    var activities: seq<ManagedActivity>
    var activeTab: string
    var searchText: string
    var isModalVisible: bool
    var fileList: seq<UploadFile>

    constructor ()
      ensures activities == [] && activeTab == "all" && searchText == "" && !isModalVisible && fileList == []
    {
      activities := [];
      activeTab := "all";
      searchText := "";
      isModalVisible := false;
      fileList := [];
    }

    /** What the table shows. */
    function Rows(lower: string -> string): (r: seq<ManagedActivity>)
      reads this
      ensures forall i :: 0 <= i < |r| ==> r[i] in activities && MatchesTab(activeTab, r[i].status)
    {
      FilteredActivities(lower, activities, searchText, activeTab)
    }

    /** `fetchActivities`: the reply's list, [] for an empty reply, the demonstration list on an error. */
    method Fetch(reply: Result<Option<seq<ManagedActivity>>, string>)
      modifies this
      ensures reply.Ok? && reply.value.Some? ==> activities == reply.value.value
      ensures reply.Ok? && reply.value.None? ==> activities == []
      ensures reply.Err? ==> activities == DemoActivities
      ensures activeTab == old(activeTab) && searchText == old(searchText)
      ensures isModalVisible == old(isModalVisible) && fileList == old(fileList)
    {
      match reply
      case Ok(data) => activities := if data.Some? then data.value else [];
      case Err(_) => activities := DemoActivities;
    }

    /** `handleSearch` */
    method HandleSearch(value: string)
      modifies this
      ensures searchText == value
      ensures activities == old(activities) && activeTab == old(activeTab) && isModalVisible == old(isModalVisible)
    {
      searchText := value;
    }

    /** The tabs' `onChange` */
    method SetTab(key: string)
      modifies this
      ensures activeTab == key
      ensures activities == old(activities) && searchText == old(searchText) && isModalVisible == old(isModalVisible)
    {
      activeTab := key;
    }

    /** `showCreateModal`: an empty upload list and the dialog open. */
    method ShowCreateModal()
      modifies this
      ensures isModalVisible && fileList == []
      ensures activities == old(activities) && activeTab == old(activeTab) && searchText == old(searchText)
    {
      fileList := [];
      isModalVisible := true;
    }

    /** The upload's `onChange` */
    method SetFileList(files: seq<UploadFile>)
      modifies this
      ensures fileList == files
      ensures activities == old(activities) && isModalVisible == old(isModalVisible)
    {
      fileList := files;
    }

    /**
     * `onFinish`: the multipart request, the activity part first and then
     * each file with an `originFileObj`; on success the dialog closes and
     * the list is fetched again. A range that throws sends nothing.
     */
    method OnFinish(values: map<string, FieldValue>, posted: bool)
      returns (request: Option<Request>, toast: string, refetch: bool)
      modifies this
      ensures !HasRange(values) ==> request.None? && toast == "创建失败，请重试" && !refetch
      ensures HasRange(values) ==> request.Some? && request.value.url == "/api/teacher/activities/create"
      ensures request.Some? ==>
        |request.value.parts| == 1 + |Attachments(fileList)|
        && request.value.parts[0].ActivityPart?
        && "timeRange" !in request.value.parts[0].data && "attachments" !in request.value.parts[0].data
        && forall i :: 1 <= i < |request.value.parts| ==>
             request.value.parts[i] == AttachmentPart(Attachments(fileList)[i - 1])
      ensures request.Some? && posted ==> toast == "活动创建成功" && refetch && !isModalVisible
      ensures request.Some? && !posted ==>
        toast == "创建失败，请重试" && !refetch && isModalVisible == old(isModalVisible)
      ensures request.None? ==> isModalVisible == old(isModalVisible)
      ensures activities == old(activities) && fileList == old(fileList) && activeTab == old(activeTab)
    {
      var data := ActivityData(values);
      if data.None? {
        return None, "创建失败，请重试", false;
      }
      var parts := [ActivityPart(data.value)];
      var files := Attachments(fileList);
      var i := 0;
      while i < |files|
        invariant 0 <= i <= |files|
        invariant |parts| == 1 + i && parts[0] == ActivityPart(data.value)
        invariant forall j :: 1 <= j < |parts| ==> parts[j] == AttachmentPart(files[j - 1])
      {
        parts := parts + [AttachmentPart(files[i])];
        i := i + 1;
      }
      request := Some(CreateActivity("/api/teacher/activities/create", parts));
      if !posted {
        return request, "创建失败，请重试", false;
      }
      toast := "活动创建成功";
      refetch := true;
      isModalVisible := false;
    }
  }

  /** The list shown when the fetch fails. */
  const DemoActivities: seq<ManagedActivity> := [
    ManagedActivity(1, "科技创新大赛", "COMPETITION", "大学体育馆",
      "2023-10-01 08:00:00", "2023-10-15 18:00:00", "UPCOMING", 100, 45),
    ManagedActivity(2, "志愿服务活动", "VOLUNTEER", "社区中心",
      "2023-10-05 09:00:00", "2023-10-06 17:00:00", "ONGOING", 50, 30),
    ManagedActivity(3, "学术讲座：人工智能前沿", "LECTURE", "图书馆报告厅",
      "2023-10-10 14:00:00", "2023-10-10 16:00:00", "COMPLETED", 200, 120)
  ]

  /** Each status tab shows one demonstration activity, but none of them has badge text. */
  lemma DemoBadgesAreBlank()
    ensures forall i :: 0 <= i < |DemoActivities| ==> StatusBadge(DemoActivities[i].status).text == ""
    ensures forall i :: 0 <= i < |DemoActivities| ==> DemoActivities[i].status in {"UPCOMING", "ONGOING", "COMPLETED"}
  {
  }
}
