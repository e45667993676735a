/**
 * frontend/src/components/admin/SystemLogs.tsx: the administrator's view of
 * the operation log. The filter form becomes query parameters, in a fixed
 * order and only for the filters that are set; the table shows each
 * operation type through a label and a colour, and each role through a
 * colour; the reset button fetches the unfiltered log.
 */
module SystemLogs {
  import opened Wrappers
  import opened JavaStrings
  import opened Scripts
  import opened UrlQueries
  import Logs

  /** (label, value) */
  const OperationTypeOptions: seq<(string, string)> := [
    ("用户登录", "USER_LOGIN"), ("用户注册", "USER_REGISTER"), ("用户更新", "USER_UPDATE"),
    ("用户删除", "USER_DELETE"), ("班级创建", "CLASS_CREATE"), ("班级更新", "CLASS_UPDATE"),
    ("班级删除", "CLASS_DELETE"), ("班级添加学生", "CLASS_ADD_STUDENT"), ("班级移除学生", "CLASS_REMOVE_STUDENT"),
    ("活动创建", "ACTIVITY_CREATE"), ("活动更新", "ACTIVITY_UPDATE"), ("活动删除", "ACTIVITY_DELETE"),
    ("系统配置", "SYSTEM_CONFIG")
  ]

  const UserRoleOptions: seq<(string, string)> := [("管理员", "ADMIN"), ("教师", "TEACHER"), ("学生", "STUDENT")]

  /** `options.find(opt => opt.value === value)`: the label of the first option with the value. */
  function FindLabel(options: seq<(string, string)>, value: string): (r: Option<string>)
    ensures r.Some? ==> exists i :: 0 <= i < |options| && options[i] == (r.value, value)
    ensures r.None? <==> forall i :: 0 <= i < |options| ==> options[i].1 != value
    decreases |options|
  {
    if |options| == 0 then None
    else if options[0].1 == value then Some(options[0].0)
    else
      var r := FindLabel(options[1..], value);
      assert forall i :: 1 <= i < |options| ==> options[i] == options[1..][i - 1];
      r
  }

  /** `getOperationTypeLabel`: the listed label, or the value itself. */
  function OperationTypeLabel(kind: string): (shown: string)
    ensures (exists i :: 0 <= i < |OperationTypeOptions| && OperationTypeOptions[i] == (shown, kind))
      || (shown == kind && forall i :: 0 <= i < |OperationTypeOptions| ==> OperationTypeOptions[i].1 != kind)
  {
    match FindLabel(OperationTypeOptions, kind)
    case Some(l) => l
    case None => kind
  }

  /** No option's label is its value. */
  lemma LabelsAreNotValues()
    ensures forall j :: 0 <= j < |OperationTypeOptions| ==> OperationTypeOptions[j].0 != OperationTypeOptions[j].1
  {
    forall j | 0 <= j < |OperationTypeOptions|
      ensures OperationTypeOptions[j].0 != OperationTypeOptions[j].1
    {
      assert OperationTypeOptions[j].0[0] != OperationTypeOptions[j].1[0];
    }
  }

  /** Every listed operation type is shown by a label of the list, never by its raw value. */
  lemma ListedTypesShowLabels(i: nat)
    requires i < |OperationTypeOptions|
    ensures OperationTypeLabel(OperationTypeOptions[i].1) != OperationTypeOptions[i].1
    ensures exists j ::
      0 <= j < |OperationTypeOptions|
      && OperationTypeOptions[j] == (OperationTypeLabel(OperationTypeOptions[i].1), OperationTypeOptions[i].1)
  {
    LabelsAreNotValues();
    var r := FindLabel(OperationTypeOptions, OperationTypeOptions[i].1);
    assert r.Some?;
  }

  /** The backend logs three operation types the page does not list; they are shown by their raw names. */
  lemma UnlistedBackendTypes(t: Logs.OperationType)
    requires t in {Logs.USER_LOGOUT, Logs.ACTIVITY_PARTICIPATE, Logs.ACTIVITY_CANCEL}
    ensures OperationTypeLabel(Logs.OperationTypeName(t)) == Logs.OperationTypeName(t)
  {
    var name := Logs.OperationTypeName(t);
    assert forall i :: 0 <= i < |OperationTypeOptions| ==> OperationTypeOptions[i].1 != name;
  }

  /**
   * `getOperationTypeColor`: CREATE, then UPDATE, then DELETE decide the
   * colour; the LOGIN test returns the default colour like the fall-through.
   */
  function OperationTypeColor(kind: string): (color: string)
    ensures Contains(kind, "CREATE") ==> color == "success"
    ensures !Contains(kind, "CREATE") && Contains(kind, "UPDATE") ==> color == "processing"
    ensures !Contains(kind, "CREATE") && !Contains(kind, "UPDATE") && Contains(kind, "DELETE") ==> color == "error"
    ensures color == "default" <==>
      !Contains(kind, "CREATE") && !Contains(kind, "UPDATE") && !Contains(kind, "DELETE")
  {
    if Contains(kind, "CREATE") then "success"
    else if Contains(kind, "UPDATE") then "processing"
    else if Contains(kind, "DELETE") then "error"
    else if Contains(kind, "LOGIN") then "default"
    else "default"
  }

  /** `getRoleColor` */
  function RoleColor(role: string): (color: string)
    ensures role == "ADMIN" ==> color == "red"
    ensures role == "TEACHER" ==> color == "blue"
    ensures role == "STUDENT" ==> color == "green"
    ensures role !in {"ADMIN", "TEACHER", "STUDENT"} ==> color == "default"
  {
    if role == "ADMIN" then "red"
    else if role == "TEACHER" then "blue"
    else if role == "STUDENT" then "green"
    else "default"
  }

  /** Every role the role filter offers has a colour of its own. */
  lemma OfferedRolesAreColoured(i: nat, j: nat)
    requires i < |UserRoleOptions| && j < |UserRoleOptions|
    ensures RoleColor(UserRoleOptions[i].1) != "default"
    ensures i != j ==> RoleColor(UserRoleOptions[i].1) != RoleColor(UserRoleOptions[j].1)
  {
  }

  /** The filter form; the range's ends are what `toISOString` gives for them. */
  datatype Filters = Filters(operationType: Option<string>, userRole: Option<string>, timeRange: Option<seq<string>>)

  const NoFilters: Filters := Filters(None, None, None)

  predicate HasTimePair(f: Filters) {
    f.timeRange.Some? && |f.timeRange.value| == 2
  }

  /** The position a parameter's name takes in the query. */
  function Rank(name: string): nat {
    if name == "operationType" then 0
    else if name == "userRole" then 1
    else if name == "startTime" then 2
    else 3
  }

  /** Whether the parameters hold a pair with the name. */
  predicate Holds(params: seq<(string, string)>, name: string) {
    exists i :: 0 <= i < |params| && params[i].0 == name
  }

  /** Only the four names, each in its place: operationType, userRole, startTime, endTime. */
  predicate OrderedNames(params: seq<(string, string)>) {
    (forall i :: 0 <= i < |params| ==> params[i].0 in {"operationType", "userRole", "startTime", "endTime"})
    && (forall i, j :: 0 <= i < j < |params| ==> Rank(params[i].0) < Rank(params[j].0))
  }

  /** A name is there iff its filter is set; the range gives both of its names or neither. */
  predicate PresentIffSet(f: Filters, params: seq<(string, string)>) {
    (Holds(params, "operationType") <==> Truthy(f.operationType))
    && (Holds(params, "userRole") <==> Truthy(f.userRole))
    && (Holds(params, "startTime") <==> HasTimePair(f))
    && (Holds(params, "endTime") <==> HasTimePair(f))
  }

  /** Each name carries its filter's value, form-encoded by `encode`. */
  predicate EncodedValues(f: Filters, encode: string -> string, params: seq<(string, string)>) {
    (forall i :: 0 <= i < |params| && params[i].0 == "operationType" ==>
       Truthy(f.operationType) && params[i].1 == encode(f.operationType.value))
    && (forall i :: 0 <= i < |params| && params[i].0 == "userRole" ==>
          Truthy(f.userRole) && params[i].1 == encode(f.userRole.value))
    && (forall i :: 0 <= i < |params| && params[i].0 == "startTime" ==>
          HasTimePair(f) && params[i].1 == encode(f.timeRange.value[0]))
    && (forall i :: 0 <= i < |params| && params[i].0 == "endTime" ==>
          HasTimePair(f) && params[i].1 == encode(f.timeRange.value[1]))
  }

  /** The parameters of a filter: one pair per set filter, the range as two, in order, values encoded. */
  predicate ParamsOf(f: Filters, encode: string -> string, params: seq<(string, string)>) {
    OrderedNames(params) && PresentIffSet(f, params) && EncodedValues(f, encode, params)
  }

  /** A set filter's pair; nothing for an unset one. */
  function OptionalPair(name: string, value: Option<string>, encode: string -> string): (r: seq<(string, string)>)
    ensures |r| == 1 <==> Truthy(value)
    ensures |r| <= 1 && forall i :: 0 <= i < |r| ==> Truthy(value) && r[i] == (name, encode(value.value))
  {
    if Truthy(value) then [(name, encode(value.value))] else []
  }

  /** The range's two pairs, when it has exactly two ends. */
  function TimePairs(f: Filters, encode: string -> string): (r: seq<(string, string)>)
    ensures |r| == 2 <==> HasTimePair(f)
    ensures |r| == 0 <==> !HasTimePair(f)
    ensures |r| == 2 ==>
      r[0] == ("startTime", encode(f.timeRange.value[0])) && r[1] == ("endTime", encode(f.timeRange.value[1]))
  {
    if HasTimePair(f) then [("startTime", encode(f.timeRange.value[0])), ("endTime", encode(f.timeRange.value[1]))]
    else []
  }

  lemma HoldsConcat(a: seq<(string, string)>, b: seq<(string, string)>, n: string)
    ensures Holds(a + b, n) <==> Holds(a, n) || Holds(b, n)
  {
    if Holds(a, n) {
      var i :| 0 <= i < |a| && a[i].0 == n;
      assert (a + b)[i] == a[i];
    }
    if Holds(b, n) {
      var i :| 0 <= i < |b| && b[i].0 == n;
      assert (a + b)[|a| + i] == b[i];
    }
    if Holds(a + b, n) {
      var i :| 0 <= i < |a + b| && (a + b)[i].0 == n;
      if i < |a| {
        assert a[i] == (a + b)[i];
      } else {
        assert b[i - |a|] == (a + b)[i];
      }
    }
  }

  function Parts(f: Filters, encode: string -> string): seq<(string, string)> {
    OptionalPair("operationType", f.operationType, encode) + OptionalPair("userRole", f.userRole, encode)
      + TimePairs(f, encode)
  }

  /** Where each element of the parts comes from. */
  lemma PartsAt(f: Filters, encode: string -> string, i: nat)
    requires i < |Parts(f, encode)|
    ensures var a := OptionalPair("operationType", f.operationType, encode);
            var b := OptionalPair("userRole", f.userRole, encode);
            var c := TimePairs(f, encode);
            (i < |a| ==> Parts(f, encode)[i] == a[i])
            && (|a| <= i < |a| + |b| ==> Parts(f, encode)[i] == b[i - |a|])
            && (|a| + |b| <= i ==> Parts(f, encode)[i] == c[i - |a| - |b|])
  {
  }

  lemma PartsOrdered(f: Filters, encode: string -> string)
    ensures OrderedNames(Parts(f, encode))
  {
    var p := Parts(f, encode);
    var a := OptionalPair("operationType", f.operationType, encode);
    var b := OptionalPair("userRole", f.userRole, encode);
    forall i | 0 <= i < |p|
      ensures p[i].0 in {"operationType", "userRole", "startTime", "endTime"}
      ensures Rank(p[i].0) == (if i < |a| then 0 else if i < |a| + |b| then 1 else 2 + (i - |a| - |b|))
    {
      PartsAt(f, encode, i);
    }
  }

  lemma PartsPresent(f: Filters, encode: string -> string)
    ensures PresentIffSet(f, Parts(f, encode))
  {
    var a := OptionalPair("operationType", f.operationType, encode);
    var b := OptionalPair("userRole", f.userRole, encode);
    var c := TimePairs(f, encode);
    forall n | n in {"operationType", "userRole", "startTime", "endTime"}
      ensures Holds(Parts(f, encode), n) <==> Holds(a, n) || Holds(b, n) || Holds(c, n)
    {
      HoldsConcat(a + b, c, n);
      HoldsConcat(a, b, n);
    }
    if |a| == 1 {
      assert a[0].0 == "operationType";
    }
    if |b| == 1 {
      assert b[0].0 == "userRole";
    }
    if |c| == 2 {
      assert c[0].0 == "startTime" && c[1].0 == "endTime";
    }
  }

  lemma PartsEncoded(f: Filters, encode: string -> string)
    ensures EncodedValues(f, encode, Parts(f, encode))
  {
    var p := Parts(f, encode);
    forall i | 0 <= i < |p| ensures p[i] in OptionalPair("operationType", f.operationType, encode)
      + OptionalPair("userRole", f.userRole, encode) + TimePairs(f, encode)
    {
    }
    var c := TimePairs(f, encode);
    if |c| == 2 {
      assert c[0].0 == "startTime" && c[1].0 == "endTime";
    }
  }

  /** The `params.append` calls of `fetchLogs`. */
  method QueryParams(f: Filters, encode: string -> string) returns (params: seq<(string, string)>)
    ensures ParamsOf(f, encode, params)
  {
    params := [];
    if Truthy(f.operationType) {
      params := params + [("operationType", encode(f.operationType.value))];
    }
    if Truthy(f.userRole) {
      params := params + [("userRole", encode(f.userRole.value))];
    }
    if HasTimePair(f) {
      params := params + [("startTime", encode(f.timeRange.value[0]))];
      params := params + [("endTime", encode(f.timeRange.value[1]))];
    }
    assert params == Parts(f, encode);
    PartsOrdered(f, encode);
    PartsPresent(f, encode);
    PartsEncoded(f, encode);
  }

  /** Parameters of a filter carry no name twice, so a query built from them can be read back. */
  lemma ParamsAreWellFormed(f: Filters, encode: string -> string, params: seq<(string, string)>)
    requires ParamsOf(f, encode, params)
    requires forall v :: '&' !in encode(v)
    ensures WellFormedPairs(params)
  {
    forall i | 0 <= i < |params| ensures '&' !in params[i].1 {
      var n := params[i].0;
      if n == "operationType" {
        assert params[i].1 == encode(f.operationType.value);
      } else if n == "userRole" {
        assert params[i].1 == encode(f.userRole.value);
      } else if n == "startTime" {
        assert params[i].1 == encode(f.timeRange.value[0]);
      } else {
        assert params[i].1 == encode(f.timeRange.value[1]);
      }
    }
  }

  const LogsPath: string := "/api/admin/logs"

  /** The URL `fetchLogs` requests for its parameters. */
  function LogsUrl(params: seq<(string, string)>): (url: string)
    ensures params == [] ==> url == LogsPath
    ensures params != [] ==> url == LogsPath + "?" + QueryText(params)
  {
    if QueryText(params) != "" then LogsPath + "?" + QueryText(params) else LogsPath
  }

  /** A set filter reaches the query under its name; an unset one is not in it. */
  lemma FilterReachesQuery(f: Filters, encode: string -> string, params: seq<(string, string)>)
    requires ParamsOf(f, encode, params) && params != []
    requires forall v :: '&' !in encode(v)
    ensures Truthy(f.operationType) ==>
      QueryParam(LogsUrl(params)[|LogsPath|..], "operationType") == Some(encode(f.operationType.value))
    ensures !Truthy(f.userRole) ==> QueryParam(LogsUrl(params)[|LogsPath|..], "userRole").None?
    ensures HasTimePair(f) ==>
      QueryParam(LogsUrl(params)[|LogsPath|..], "startTime") == Some(encode(f.timeRange.value[0]))
  {
    ParamsAreWellFormed(f, encode, params);
    QueryTextReadsBack(params, "userRole");
    assert LogsUrl(params)[|LogsPath|..] == "?" + QueryText(params);
  }

  datatype LogRow = LogRow(id: nat, operationType: string, userRole: string, ipAddress: string)

  /** The page's state: the rows shown and whether a fetch is running. */
  class SystemLogsPage {
    var logs: seq<LogRow>
    var loading: bool

    constructor ()
      ensures logs == [] && !loading
    {
      logs := [];
      loading := false;
    }

    /**
     * `fetchLogs`: without filters the bare path; with filters their
     * parameters, and the path alone when none is set. A failed request
     * keeps the rows and shows '获取系统日志失败'.
     */
    method FetchLogs(filters: Option<Filters>, encode: string -> string, reply: Option<seq<LogRow>>)
      returns (url: string, params: seq<(string, string)>, toast: Option<string>)
      modifies this
      ensures filters.None? ==> params == [] && url == LogsPath
      ensures filters.Some? ==> ParamsOf(filters.value, encode, params) && url == LogsUrl(params)
      ensures reply.Some? ==> logs == reply.value && toast.None?
      ensures reply.None? ==> logs == old(logs) && toast == Some("获取系统日志失败")
      ensures !loading
    {
      loading := true;
      params := [];
      if filters.Some? {
        params := QueryParams(filters.value, encode);
      }
      url := LogsUrl(params);
      if reply.Some? {
        logs := reply.value;
        toast := None;
      } else {
        toast := Some("获取系统日志失败");
      }
      loading := false;
    }

    /** `handleReset`: the form is cleared and the unfiltered log fetched. */
    method HandleReset(encode: string -> string, reply: Option<seq<LogRow>>) returns (url: string)
      modifies this
      ensures url == LogsPath
      ensures reply.Some? ==> logs == reply.value
      ensures reply.None? ==> logs == old(logs)
    {
      var params, toast;
      url, params, toast := FetchLogs(None, encode, reply);
    }
  }

  /** A filter form left empty asks for the same URL as the reset button. */
  lemma EmptyFormIsReset(encode: string -> string, params: seq<(string, string)>)
    requires ParamsOf(NoFilters, encode, params)
    ensures params == [] && LogsUrl(params) == LogsPath
  {
    if |params| > 0 {
      var n := params[0].0;
      assert Holds(params, n);
    }
  }
}
