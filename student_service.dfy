/**
 * The student side of activities (StudentService.java): listing activities
 * with the caller's participation status, and the register / cancel /
 * complete state machine over participation rows and the activity's
 * `currentParticipants` counter.
 */
module StudentServices {
  import opened Wrappers
  import opened JavaStrings
  import opened Users
  import opened Activities
  import opened Participations
  import opened Scripts

  datatype StudentError =
    | ActivityNotFound(id: ActivityId)
    | UserNotFound
    | ActivityEnded
    | ActivityFull
    | AlreadyRegistered
    | NotRegistered
    | CancelNeedsRegistered
    | CompleteNeedsRegistered
    | ActivityNotEnded
    | UnsupportedType(typeStr: string)
    /** Spring Data's IncorrectResultSizeDataAccessException: an Optional query matched several rows. */
    | NonUniqueResult

  /** The text of the RuntimeException the service throws. */
  function Message(e: StudentError): string {
    match e
    case ActivityNotFound(id) => "活动不存在: " + LongText(id)
    case UserNotFound => "用户不存在"
    case ActivityEnded => "活动已结束，无法报名"
    case ActivityFull => "活动报名已满"
    case AlreadyRegistered => "您已报名此活动"
    case NotRegistered => "您未报名此活动"
    case CancelNeedsRegistered => "只能取消处于已报名状态的活动"
    case CompleteNeedsRegistered => "只能完成处于已报名状态的活动"
    case ActivityNotEnded => "只能完成已结束的活动"
    case UnsupportedType(t) => "不支持的活动类型: " + t
    case NonUniqueResult => "query did not return a unique result"
  }

  predicate IsFor(p: Participation, u: UserId, a: ActivityId) {
    p.userId == u && p.activityId == a
  }

  /** The indices, in table order, of the rows of the pair (u, a). */
  function Matching(rows: seq<Participation>, u: UserId, a: ActivityId): (m: seq<nat>)
    ensures forall k :: 0 <= k < |m| ==> m[k] < |rows| && IsFor(rows[m[k]], u, a)
    ensures forall i :: 0 <= i < |rows| && IsFor(rows[i], u, a) ==> i in m
    ensures forall k, l :: 0 <= k < l < |m| ==> m[k] < m[l]
    decreases |rows|
  {
    if |rows| == 0 then []
    else
      var m := Matching(rows[..|rows| - 1], u, a);
      if IsFor(rows[|rows| - 1], u, a) then m + [|rows| - 1] else m
  }

  /** What `findByUserAndActivity`, declared to return an Optional, yields. */
  datatype Lookup = NoRow | OneRow(index: nat) | ManyRows

  function FindByUserAndActivity(rows: seq<Participation>, u: UserId, a: ActivityId): (l: Lookup)
    ensures l.NoRow? <==> forall i :: 0 <= i < |rows| ==> !IsFor(rows[i], u, a)
    ensures l.OneRow? ==> l.index < |rows| && IsFor(rows[l.index], u, a)
    ensures l.OneRow? ==> forall i :: 0 <= i < |rows| && IsFor(rows[i], u, a) ==> i == l.index
    ensures l.ManyRows? <==>
      exists i, j :: 0 <= i < j < |rows| && IsFor(rows[i], u, a) && IsFor(rows[j], u, a)
  {
    var m := Matching(rows, u, a);
    if |m| == 0 then NoRow
    else if |m| == 1 then OneRow(m[0])
    else
      assert m[0] < m[1] && IsFor(rows[m[0]], u, a) && IsFor(rows[m[1]], u, a);
      ManyRows
  }

  function Holds(p: Participation, a: ActivityId): nat {
    if p.activityId == a && p.status.REGISTERED? then 1 else 0
  }

  /** The number of REGISTERED rows of activity a. */
  function RegisteredCount(rows: seq<Participation>, a: ActivityId): nat
    decreases |rows|
  {
    if |rows| == 0 then 0
    else RegisteredCount(rows[..|rows| - 1], a) + Holds(rows[|rows| - 1], a)
  }

  lemma {:induction false} RegisteredCountUpdate(rows: seq<Participation>, i: nat, p: Participation, a: ActivityId)
    requires i < |rows|
    ensures RegisteredCount(rows[i := p], a) + Holds(rows[i], a) == RegisteredCount(rows, a) + Holds(p, a)
    decreases |rows|
  {
    var n := |rows| - 1;
    if i < n {
      assert rows[i := p][..n] == rows[..n][i := p];
      RegisteredCountUpdate(rows[..n], i, p, a);
    } else {
      assert rows[i := p][..n] == rows[..n];
    }
  }

  /** A REGISTERED row of activity a is counted. */
  lemma {:induction false} RegisteredRowCounted(rows: seq<Participation>, i: nat, a: ActivityId)
    requires i < |rows| && rows[i].activityId == a && rows[i].status.REGISTERED?
    ensures RegisteredCount(rows, a) >= 1
    decreases |rows|
  {
    if i < |rows| - 1 {
      RegisteredRowCounted(rows[..|rows| - 1], i, a);
    }
  }

  /** Rows of other activities do not move activity a's count. */
  lemma {:induction false} RegisteredCountOther(rows: seq<Participation>, i: nat, p: Participation, a: ActivityId)
    requires i < |rows| && rows[i].activityId != a && p.activityId != a
    ensures RegisteredCount(rows[i := p], a) == RegisteredCount(rows, a)
  {
    RegisteredCountUpdate(rows, i, p, a);
  }

  /**
   * The checks of `registerActivity`, in the order the source makes them:
   * None when the registration goes ahead.
   */
  function RegisterCheck(activities: map<ActivityId, Activity>, users: map<UserId, User>,
                         rows: seq<Participation>, id: ActivityId, username: string): (e: Option<StudentError>)
    requires UniqueAccounts(users)
    ensures id !in activities ==> e == Some(ActivityNotFound(id))
    ensures id in activities && !UsernameTaken(users, username) ==> e == Some(UserNotFound)
    // an ended activity is refused before capacity and duplicates are looked at
    ensures id in activities && UsernameTaken(users, username) && activities[id].status.COMPLETED? ==>
      e == Some(ActivityEnded)
    // a full activity is refused even for a user who is already registered
    ensures (id in activities && UsernameTaken(users, username) && !activities[id].status.COMPLETED? &&
             activities[id].currentParticipants >= activities[id].maxParticipants) ==> e == Some(ActivityFull)
    // past those checks, only an existing REGISTERED row blocks
    ensures (id in activities && UsernameTaken(users, username) && !activities[id].status.COMPLETED? &&
             activities[id].currentParticipants < activities[id].maxParticipants) ==>
        var l := FindByUserAndActivity(rows, FindByUsername(users, username).value, id);
        (e == Some(AlreadyRegistered) <==> l.OneRow? && rows[l.index].status.REGISTERED?) &&
        (e == Some(NonUniqueResult) <==> l.ManyRows?) &&
        (e.None? <==> l.NoRow? || (l.OneRow? && !rows[l.index].status.REGISTERED?))
  {
    if id !in activities then Some(ActivityNotFound(id))
    else if !UsernameTaken(users, username) then Some(UserNotFound)
    else
      var a := activities[id];
      var uid := FindByUsername(users, username).value;
      if a.status.COMPLETED? then Some(ActivityEnded)
      else if a.currentParticipants >= a.maxParticipants then Some(ActivityFull)
      else
        match FindByUserAndActivity(rows, uid, id)
        case ManyRows => Some(NonUniqueResult)
        case OneRow(i) => if rows[i].status.REGISTERED? then Some(AlreadyRegistered) else None
        case NoRow => None
  }

  /**
   * The lookups shared by `cancelActivity` and `completeActivity`: the
   * activity, the user and the pair's single row, which must be REGISTERED.
   * The result is that row's index.
   */
  function RegisteredRow(activities: map<ActivityId, Activity>, users: map<UserId, User>,
                         rows: seq<Participation>, id: ActivityId, username: string,
                         notRegistered: StudentError): (r: Result<nat, StudentError>)
    requires UniqueAccounts(users)
    ensures r.Ok? <==> (id in activities && UsernameTaken(users, username) &&
      var l := FindByUserAndActivity(rows, FindByUsername(users, username).value, id);
      l.OneRow? && rows[l.index].status.REGISTERED?)
    ensures r.Ok? ==> (r.value < |rows| && rows[r.value].activityId == id &&
      rows[r.value].userId == FindByUsername(users, username).value && rows[r.value].status.REGISTERED?)
    ensures (id in activities && UsernameTaken(users, username) &&
             FindByUserAndActivity(rows, FindByUsername(users, username).value, id).NoRow?) ==>
      r == Err(NotRegistered)
    ensures id in activities && UsernameTaken(users, username) ==>
      var l := FindByUserAndActivity(rows, FindByUsername(users, username).value, id);
      (l.OneRow? && !rows[l.index].status.REGISTERED?) ==> r == Err(notRegistered)
  {
    if id !in activities then Err(ActivityNotFound(id))
    else if !UsernameTaken(users, username) then Err(UserNotFound)
    else
      match FindByUserAndActivity(rows, FindByUsername(users, username).value, id)
      case NoRow => Err(NotRegistered)
      case ManyRows => Err(NonUniqueResult)
      case OneRow(i) => if rows[i].status.REGISTERED? then Ok(i) else Err(notRegistered)
  }

  /** The checks of `completeActivity`: a REGISTERED row, then an ended activity. */
  function CompleteCheck(activities: map<ActivityId, Activity>, users: map<UserId, User>,
                         rows: seq<Participation>, id: ActivityId, username: string): (r: Result<nat, StudentError>)
    requires UniqueAccounts(users)
    ensures r.Ok? <==> (RegisteredRow(activities, users, rows, id, username, CompleteNeedsRegistered).Ok? &&
                        activities[id].status.COMPLETED?)
    ensures r.Ok? ==> r == RegisteredRow(activities, users, rows, id, username, CompleteNeedsRegistered)
    ensures (RegisteredRow(activities, users, rows, id, username, CompleteNeedsRegistered).Ok? &&
             !activities[id].status.COMPLETED?) ==> r == Err(ActivityNotEnded)
  {
    var row := RegisteredRow(activities, users, rows, id, username, CompleteNeedsRegistered);
    if row.Err? then row
    else if !activities[id].status.COMPLETED? then Err(ActivityNotEnded)
    else row
  }

  /** `activityMap` for one activity, with the participation status of user uid if known. */
  function ViewFor(activities: map<ActivityId, Activity>, users: map<UserId, User>,
                   rows: seq<Participation>, aid: ActivityId, uid: Option<UserId>): (v: ActivityView)
    requires aid in activities
    ensures v.id == activities[aid].id
    ensures v.participationStatus.Some? <==> uid.Some? && FindByUserAndActivity(rows, uid.value, aid).OneRow?
    ensures v.participationStatus.Some? ==>
      v.participationStatus.value ==
        ParticipationStatusName(rows[FindByUserAndActivity(rows, uid.value, aid).index].status)
  {
    var v := ToView(activities[aid], users);
    if uid.None? then v
    else match FindByUserAndActivity(rows, uid.value, aid)
      case OneRow(i) => v.(participationStatus := Some(ParticipationStatusName(rows[i].status)))
      case _ => v
  }

  /** Every activity's counter is at least the number of its REGISTERED rows. */
  ghost predicate Counted(activities: map<ActivityId, Activity>, rows: seq<Participation>) {
    forall a :: a in activities ==> activities[a].currentParticipants >= RegisteredCount(rows, a)
  }

  /** `activities` with activity id's counter moved by delta. */
  function Bumped(activities: map<ActivityId, Activity>, id: ActivityId, delta: int): (m: map<ActivityId, Activity>)
    requires id in activities
    ensures m.Keys == activities.Keys
    ensures m[id].currentParticipants == activities[id].currentParticipants + delta
    ensures forall b :: b in activities && b != id ==> m[b] == activities[b]
  {
    activities[id := activities[id].(currentParticipants := activities[id].currentParticipants + delta)]
  }

  /** Inserting a row and raising its activity's counter by one keeps the counters covering. */
  lemma {:induction false} CountedAfterInsert(activities: map<ActivityId, Activity>, rows: seq<Participation>,
                                              row: Participation)
    requires Counted(activities, rows) && row.activityId in activities
    ensures Counted(Bumped(activities, row.activityId, 1), rows + [row])
  {
    forall b | b in activities {
      RegisteredCountAppend(rows, row, b);
    }
  }

  /**
   * Rewriting row i of activity id keeps the counters covering when the
   * counter moves by at least the change in that activity's REGISTERED rows.
   */
  lemma {:induction false} CountedAfterReplace(activities: map<ActivityId, Activity>, rows: seq<Participation>,
                                               i: nat, row: Participation, delta: int)
    requires Counted(activities, rows) && i < |rows|
    requires rows[i].activityId in activities && row.activityId == rows[i].activityId
    requires Holds(row, row.activityId) - Holds(rows[i], row.activityId) <= delta
    ensures Counted(Bumped(activities, row.activityId, delta), rows[i := row])
  {
    var id := row.activityId;
    RegisteredCountUpdate(rows, i, row, id);
    forall b | b in activities && b != id
      ensures RegisteredCount(rows[i := row], b) == RegisteredCount(rows, b)
    {
      RegisteredCountOther(rows, i, row, b);
    }
  }

  /**
   * Under the counter invariant, the `currentParticipants > 0` guard of
   * `cancelActivity` always holds once its lookups succeed: the row being
   * cancelled is one of the REGISTERED rows the counter covers.
   */
  lemma {:induction false} CancelFindsPositiveCounter(activities: map<ActivityId, Activity>, users: map<UserId, User>,
                                                      rows: seq<Participation>, id: ActivityId, username: string)
    requires UniqueAccounts(users)
    requires Counted(activities, rows)
    requires RegisteredRow(activities, users, rows, id, username, CancelNeedsRegistered).Ok?
    ensures activities[id].currentParticipants > 0
  {
    var i := RegisteredRow(activities, users, rows, id, username, CancelNeedsRegistered).value;
    RegisteredRowCounted(rows, i, id);
  }

  /** Every (user, activity) pair has at most one participation row. */
  ghost predicate OneRowPerPair(rows: seq<Participation>) {
    forall i, j :: 0 <= i < j < |rows| ==> !IsFor(rows[j], rows[i].userId, rows[i].activityId)
  }

  /** With one row per pair, the Optional lookup never sees several rows. */
  lemma {:induction false} OneRowPerPairIsUnambiguous(rows: seq<Participation>, u: UserId, a: ActivityId)
    requires OneRowPerPair(rows)
    ensures !FindByUserAndActivity(rows, u, a).ManyRows?
  {
  }

  /** Appending a row for a pair that has none keeps one row per pair. */
  lemma {:induction false} OneRowPerPairAppend(rows: seq<Participation>, row: Participation)
    requires OneRowPerPair(rows)
    requires FindByUserAndActivity(rows, row.userId, row.activityId).NoRow?
    ensures OneRowPerPair(rows + [row])
  {
    forall i, j | 0 <= i < j < |rows + [row]|
      ensures !IsFor((rows + [row])[j], (rows + [row])[i].userId, (rows + [row])[i].activityId)
    {
      if j == |rows| {
        assert !IsFor(rows[i], row.userId, row.activityId);
      }
    }
  }

  /** Rewriting a row in place, for the same pair, keeps one row per pair. */
  lemma {:induction false} OneRowPerPairUpdate(rows: seq<Participation>, i: nat, row: Participation)
    requires OneRowPerPair(rows) && i < |rows|
    requires IsFor(row, rows[i].userId, rows[i].activityId)
    ensures OneRowPerPair(rows[i := row])
  {
  }

  /** Appending a row adds its own contribution to each activity's count. */
  lemma {:induction false} RegisteredCountAppend(rows: seq<Participation>, row: Participation, a: ActivityId)
    ensures RegisteredCount(rows + [row], a) == RegisteredCount(rows, a) + Holds(row, a)
  {
    assert (rows + [row])[..|rows|] == rows;
  }

  /** Distinct entries, latest start first. */
  ghost predicate LatestFirst(activities: map<ActivityId, Activity>, s: seq<ActivityId>)
    requires forall k :: 0 <= k < |s| ==> s[k] in activities
  {
    forall k, l :: 0 <= k < l < |s| ==> s[k] != s[l] && activities[s[k]].startTime >= activities[s[l]].startTime
  }

  /** The activity ids, each once, ordered by start time, latest first. */
  ghost predicate ByStartTimeDesc(activities: map<ActivityId, Activity>, ordered: seq<ActivityId>) {
    (forall k :: 0 <= k < |ordered| ==> ordered[k] in activities) &&
    (forall a :: a in activities ==> a in ordered) &&
    LatestFirst(activities, ordered)
  }

  /** The activities of `ordered` whose type is `t`, kept in the order of `ordered` (`findByTypeOrderByStartTimeDesc`). */
  function OfType(activities: map<ActivityId, Activity>, ordered: seq<ActivityId>, t: ActivityType): (r: seq<ActivityId>)
    requires forall k :: 0 <= k < |ordered| ==> ordered[k] in activities
    ensures |r| <= |ordered|
    ensures forall k :: 0 <= k < |r| ==> r[k] in ordered && r[k] in activities && activities[r[k]].activityType == t
    ensures forall k :: 0 <= k < |ordered| && activities[ordered[k]].activityType == t ==> ordered[k] in r
  {
    if |ordered| == 0 then []
    else
      var last := ordered[|ordered| - 1];
      OfType(activities, ordered[..|ordered| - 1], t) + (if activities[last].activityType == t then [last] else [])
  }

  /** `OfType` of a listing with distinct entries, latest start first, is again such a listing. */
  lemma {:induction false} OfTypeKeepsStartOrder(activities: map<ActivityId, Activity>, ordered: seq<ActivityId>, t: ActivityType)
    requires forall k :: 0 <= k < |ordered| ==> ordered[k] in activities
    requires LatestFirst(activities, ordered)
    ensures LatestFirst(activities, OfType(activities, ordered, t))
    decreases |ordered|
  {
    if |ordered| > 0 {
      var n := |ordered| - 1;
      var front := ordered[..n];
      assert forall k :: 0 <= k < |front| ==> front[k] == ordered[k];
      assert LatestFirst(activities, front);
      OfTypeKeepsStartOrder(activities, front, t);
      var p := OfType(activities, front, t);
      var last := ordered[n];
      if activities[last].activityType == t {
        var r := p + [last];
        assert OfType(activities, ordered, t) == r;
        forall k | 0 <= k < |p|
          ensures p[k] != last && activities[p[k]].startTime >= activities[last].startTime
        {
          var j :| 0 <= j < |front| && front[j] == p[k];
          assert ordered[j] == p[k] && j < n;
        }
        forall k, l | 0 <= k < l < |r|
          ensures r[k] != r[l] && activities[r[k]].startTime >= activities[r[l]].startTime
        {
          assert r[k] == p[k];
          if l < |p| {
            assert r[l] == p[l];
          }
        }
      } else {
        assert OfType(activities, ordered, t) == p;
      }
    }
  }

  class StudentService {
    /** activityRepository, by id */
    var activities: map<ActivityId, Activity>
    /** userRepository, by id */
    var users: map<UserId, User>
    /** participationRepository, in insertion order */
    var rows: seq<Participation>
    /** the next generated participation id */
    var nextRowId: int

    /**
     * The repositories are consistent and every activity's counter is at
     * least the number of its REGISTERED rows, so it never drops below 0.
     */
    ghost predicate Valid()
      reads this
    {
      UniqueAccounts(users) &&
      (forall a :: a in activities ==> activities[a].id == a) &&
      (forall i :: 0 <= i < |rows| ==> rows[i].activityId in activities) &&
      Counted(activities, rows)
    }

    constructor (activities: map<ActivityId, Activity>, users: map<UserId, User>)
      requires UniqueAccounts(users)
      requires forall a :: a in activities ==> activities[a].id == a && activities[a].currentParticipants >= 0
      ensures Valid()
      ensures this.activities == activities && this.users == users && rows == []
    {
      this.activities := activities;
      this.users := users;
      rows := [];
      nextRowId := 1;
    }

    /** The projection loop of `getActivities` and `getActivitiesByType`. */
    method Project(listing: seq<ActivityId>, uid: Option<UserId>) returns (r: Result<seq<ActivityView>, StudentError>)
      requires forall k :: 0 <= k < |listing| ==> listing[k] in activities
      ensures r.Err? <==>
        (uid.Some? && exists k :: 0 <= k < |listing| && FindByUserAndActivity(rows, uid.value, listing[k]).ManyRows?)
      ensures r.Err? ==> r.error == NonUniqueResult
      ensures r.Ok? ==>
        |r.value| == |listing| &&
        forall k :: 0 <= k < |listing| ==> r.value[k] == ViewFor(activities, users, rows, listing[k], uid)
    {
      var result: seq<ActivityView> := [];
      var i := 0;
      while i < |listing|
        invariant 0 <= i <= |listing|
        invariant |result| == i
        invariant forall k :: 0 <= k < i ==> result[k] == ViewFor(activities, users, rows, listing[k], uid)
        invariant uid.Some? ==> forall k :: 0 <= k < i ==> !FindByUserAndActivity(rows, uid.value, listing[k]).ManyRows?
      {
        if uid.Some? && FindByUserAndActivity(rows, uid.value, listing[i]).ManyRows? {
          return Err(NonUniqueResult);
        }
        result := result + [ViewFor(activities, users, rows, listing[i], uid)];
        i := i + 1;
      }
      return Ok(result);
    }

    /** `getActivities(username)`: all activities, latest start first; an unknown user just gets no status. */
    method GetActivities(username: string, ordered: seq<ActivityId>) returns (r: Result<seq<ActivityView>, StudentError>)
      requires Valid() && ByStartTimeDesc(activities, ordered)
      ensures var uid := FindByUsername(users, username);
        r.Ok? ==>
          |r.value| == |ordered| &&
          forall k :: 0 <= k < |ordered| ==> r.value[k] == ViewFor(activities, users, rows, ordered[k], uid)
      ensures var uid := FindByUsername(users, username);
        r.Err? <==> uid.Some? && exists k :: 0 <= k < |ordered| && FindByUserAndActivity(rows, uid.value, ordered[k]).ManyRows?
      ensures r.Err? ==> r.error == NonUniqueResult
      ensures !UsernameTaken(users, username) ==> r.Ok?
    {
      r := Project(ordered, FindByUsername(users, username));
    }

    /**
     * `getActivitiesByType(typeStr, username)`: `typeStr.toUpperCase()` must
     * name an ActivityType; then the activities of that type, in start order.
     */
    method GetActivitiesByType(upper: string -> string, typeStr: string, username: string, ordered: seq<ActivityId>)
      returns (r: Result<seq<ActivityView>, StudentError>)
      requires Valid() && ByStartTimeDesc(activities, ordered)
      ensures TypeValueOf(upper(typeStr)).None? <==> r == Err(UnsupportedType(typeStr))
      ensures TypeValueOf(upper(typeStr)).Some? ==>
        var listing := OfType(activities, ordered, TypeValueOf(upper(typeStr)).value);
        var uid := FindByUsername(users, username);
        (r.Err? <==> uid.Some? && exists k :: 0 <= k < |listing| && FindByUserAndActivity(rows, uid.value, listing[k]).ManyRows?) &&
        (r.Err? ==> r.error == NonUniqueResult) &&
        (r.Ok? ==>
           |r.value| == |listing| &&
           forall k :: 0 <= k < |listing| ==> r.value[k] == ViewFor(activities, users, rows, listing[k], uid))
      ensures r.Ok? ==> var t := TypeValueOf(upper(typeStr)).value;
        (forall k :: 0 <= k < |r.value| ==> r.value[k].activityType == TypeName(t)) &&
        (forall a :: a in activities && activities[a].activityType == t ==>
           exists k :: 0 <= k < |r.value| && r.value[k].id == a)
    {
      var parsed := TypeValueOf(upper(typeStr));
      if parsed.None? {
        return Err(UnsupportedType(typeStr));
      }
      var t := parsed.value;
      var listing := OfType(activities, ordered, t);
      r := Project(listing, FindByUsername(users, username));
      if r.Ok? {
        forall a | a in activities && activities[a].activityType == t
          ensures exists k :: 0 <= k < |r.value| && r.value[k].id == a
        {
          var j :| 0 <= j < |ordered| && ordered[j] == a;
          var k :| 0 <= k < |listing| && listing[k] == a;
          assert r.value[k].id == a;
        }
      }
    }

    /** `getMyActivities(username)`: one entry per participation row of the user, in table order. */
    method GetMyActivities(username: string) returns (r: Result<seq<ActivityView>, StudentError>)
      requires Valid()
      ensures !UsernameTaken(users, username) <==> r == Err(UserNotFound)
      ensures r.Ok? ==> var uid := FindByUsername(users, username).value;
        |r.value| == |RowsOf(rows, uid)| &&
        forall k :: 0 <= k < |r.value| ==>
          r.value[k] == ToView(activities[RowsOf(rows, uid)[k].activityId], users)
                          .(participationStatus := Some(ParticipationStatusName(RowsOf(rows, uid)[k].status)))
    {
      if !UsernameTaken(users, username) {
        return Err(UserNotFound);
      }
      var uid := FindByUsername(users, username).value;
      var mine := RowsOf(rows, uid);
      var result: seq<ActivityView> := [];
      var i := 0;
      while i < |mine|
        invariant 0 <= i <= |mine|
        invariant |result| == i
        invariant forall k :: 0 <= k < i ==>
          result[k] == ToView(activities[mine[k].activityId], users)
                         .(participationStatus := Some(ParticipationStatusName(mine[k].status)))
      {
        var p := mine[i];
        result := result + [ToView(activities[p.activityId], users).(participationStatus := Some(ParticipationStatusName(p.status)))];
        i := i + 1;
      }
      return Ok(result);
    }

    /** `getActivityDetail(id, username)`: the activity and the user's status on it. */
    method GetActivityDetail(id: ActivityId, username: string) returns (r: Result<ActivityView, StudentError>)
      requires Valid()
      ensures id !in activities ==> r == Err(ActivityNotFound(id))
      ensures id in activities && !UsernameTaken(users, username) ==> r == Err(UserNotFound)
      ensures id in activities && UsernameTaken(users, username) ==>
        var uid := FindByUsername(users, username).value;
        if FindByUserAndActivity(rows, uid, id).ManyRows? then r == Err(NonUniqueResult)
        else r == Ok(ViewFor(activities, users, rows, id, Some(uid)))
    {
      if id !in activities {
        return Err(ActivityNotFound(id));
      }
      if !UsernameTaken(users, username) {
        return Err(UserNotFound);
      }
      var uid := FindByUsername(users, username).value;
      if FindByUserAndActivity(rows, uid, id).ManyRows? {
        return Err(NonUniqueResult);
      }
      return Ok(ViewFor(activities, users, rows, id, Some(uid)));
    }

    /**
     * `registerActivity(id, username)`: after the checks, a NEW REGISTERED
     * row is inserted (stamped by `onCreate`) and the counter rises by one.
     * `now` is the service's clock read, t1..t3 the hook's.
     */
    method RegisterActivity(id: ActivityId, username: string, now: Instant, t1: Instant, t2: Instant, t3: Instant)
      returns (r: Result<ActivityView, StudentError>)
      requires Valid()
      modifies this
      ensures Valid() && users == old(users)
      ensures var e := RegisterCheck(old(activities), old(users), old(rows), id, username);
        if e.Some? then
          r == Err(e.value) && activities == old(activities) && rows == old(rows)
        else
          var uid := FindByUsername(old(users), username).value;
          activities == Bumped(old(activities), id, 1) &&
          rows == old(rows) + [Created(Participation(old(nextRowId), uid, id, ParticipationStatus.REGISTERED,
                                         Some(now), None, None, None, None), t1, t2, t3)] &&
          r == Ok(ToView(activities[id], users).(participationStatus := Some("REGISTERED")))
    {
      var e := RegisterCheck(activities, users, rows, id, username);
      if e.Some? {
        return Err(e.value);
      }
      var uid := FindByUsername(users, username).value;
      InsertRegistration(uid, id, now, t1, t2, t3);
      return Ok(ToView(activities[id], users).(participationStatus := Some("REGISTERED")));
    }

    /** `participationRepository.save` of a new REGISTERED row, then the counter update. */
    method InsertRegistration(uid: UserId, id: ActivityId, now: Instant, t1: Instant, t2: Instant, t3: Instant)
      requires Valid() && id in activities
      modifies this
      ensures Valid() && users == old(users) && nextRowId == old(nextRowId) + 1
      ensures activities == Bumped(old(activities), id, 1)
      ensures rows == old(rows) + [Created(Participation(old(nextRowId), uid, id, ParticipationStatus.REGISTERED,
                                              Some(now), None, None, None, None), t1, t2, t3)]
    {
      var p := new ActivityParticipation(nextRowId, uid, id, ParticipationStatus.REGISTERED);
      p.registerTime := Some(now);
      p.OnCreate(t1, t2, t3);
      var row := p.Row();
      CountedAfterInsert(activities, rows, row);
      rows := rows + [row];
      nextRowId := nextRowId + 1;
      activities := Bumped(activities, id, 1);
    }

    /**
     * `participationRepository.save` of row i edited into `row` (so
     * `onUpdate` stamps it), then its activity's counter moved by delta.
     */
    method SaveRow(i: nat, row: Participation, t1: Instant, t2: Instant, delta: int)
      requires Valid() && i < |rows| && row.activityId == rows[i].activityId
      requires Holds(Updated(row, t1, t2), rows[i].activityId) - Holds(rows[i], rows[i].activityId) <= delta
      modifies this
      ensures Valid() && users == old(users) && nextRowId == old(nextRowId)
      ensures activities == Bumped(old(activities), old(rows)[i].activityId, delta)
      ensures rows == old(rows)[i := Updated(row, t1, t2)]
    {
      var p := new ActivityParticipation.Load(row);
      p.OnUpdate(t1, t2);
      var saved := p.Row();
      CountedAfterReplace(activities, rows, i, saved, delta);
      var id := rows[i].activityId;
      rows := rows[i := saved];
      activities := Bumped(activities, id, delta);
    }

    /**
     * `cancelActivity(id, username)`: the user's single REGISTERED row
     * becomes CANCELLED with cancelTime = now (then `onUpdate` runs), and the
     * counter drops by one if it is positive (which, by
     * CancelFindsPositiveCounter, it always is).
     */
    method CancelActivity(id: ActivityId, username: string, now: Instant, t1: Instant, t2: Instant)
      returns (r: Result<ActivityView, StudentError>)
      requires Valid()
      modifies this
      ensures Valid() && users == old(users)
      ensures var c := RegisteredRow(old(activities), old(users), old(rows), id, username, CancelNeedsRegistered);
        if c.Err? then
          r == Err(c.error) && activities == old(activities) && rows == old(rows)
        else
          var a := old(activities)[id];
          activities == Bumped(old(activities), id, if a.currentParticipants > 0 then -1 else 0) &&
          rows == old(rows)[c.value := Updated(old(rows)[c.value].(status := ParticipationStatus.CANCELLED,
                                                                  cancelTime := Some(now)), t1, t2)] &&
          r == Ok(ToView(activities[id], users).(participationStatus := Some("CANCELLED")))
    {
      var c := RegisteredRow(activities, users, rows, id, username, CancelNeedsRegistered);
      if c.Err? {
        return Err(c.error);
      }
      var i := c.value;
      var delta := if activities[id].currentParticipants > 0 then -1 else 0;
      SaveRow(i, rows[i].(status := ParticipationStatus.CANCELLED, cancelTime := Some(now)),
              t1, t2, delta);
      return Ok(ToView(activities[id], users).(participationStatus := Some("CANCELLED")));
    }

    /**
     * `completeActivity(id, username)`: a REGISTERED row of an ended
     * activity becomes COMPLETED with completeTime = now; the counter is
     * left as it is.
     */
    method CompleteActivity(id: ActivityId, username: string, now: Instant, t1: Instant, t2: Instant)
      returns (r: Result<ActivityView, StudentError>)
      requires Valid()
      modifies this
      ensures Valid() && users == old(users) && activities == old(activities)
      ensures var c := CompleteCheck(old(activities), old(users), old(rows), id, username);
        if c.Err? then
          r == Err(c.error) && rows == old(rows)
        else
          rows == old(rows)[c.value := Updated(old(rows)[c.value].(status := ParticipationStatus.COMPLETED,
                                                                  completeTime := Some(now)), t1, t2)] &&
          r == Ok(ToView(old(activities)[id], users).(participationStatus := Some("COMPLETED")))
    {
      var c := CompleteCheck(activities, users, rows, id, username);
      if c.Err? {
        return Err(c.error);
      }
      var i := c.value;
      SaveRow(i, rows[i].(status := ParticipationStatus.COMPLETED, completeTime := Some(now)),
              t1, t2, 0);
      assert Bumped(old(activities), id, 0) == old(activities);
      return Ok(ToView(activities[id], users).(participationStatus := Some("COMPLETED")));
    }

    /**
     * `registerActivity` as evidently intended: the same checks, but an
     * existing CANCELLED or COMPLETED row of the pair is turned back into a
     * REGISTERED one (and stamped by `onUpdate`) instead of a second row being
     * inserted, so the pair keeps a single row.
     */
    method RegisterActivityReusingRow(id: ActivityId, username: string, now: Instant, t1: Instant, t2: Instant, t3: Instant)
      returns (r: Result<ActivityView, StudentError>)
      requires Valid() && OneRowPerPair(rows)
      modifies this
      ensures Valid() && OneRowPerPair(rows) && users == old(users)
      ensures RegisterCheck(old(activities), old(users), old(rows), id, username).Some? ==>
        r == Err(RegisterCheck(old(activities), old(users), old(rows), id, username).value) &&
        activities == old(activities) && rows == old(rows)
      ensures RegisterCheck(old(activities), old(users), old(rows), id, username).None? ==>
        activities == Bumped(old(activities), id, 1) &&
        r == Ok(ToView(activities[id], users).(participationStatus := Some("REGISTERED")))
      ensures RegisterCheck(old(activities), old(users), old(rows), id, username).None? ==>
        var uid := FindByUsername(old(users), username).value;
        var l := FindByUserAndActivity(old(rows), uid, id);
        (l.NoRow? ==>
           rows == old(rows) + [Created(Participation(old(nextRowId), uid, id, ParticipationStatus.REGISTERED,
                                          Some(now), None, None, None, None), t1, t2, t3)]) &&
        (l.OneRow? ==>
           rows == old(rows)[l.index := Updated(old(rows)[l.index].(status := ParticipationStatus.REGISTERED,
                                                                  registerTime := Some(now)), t1, t2)])
    {
      var e := RegisterCheck(activities, users, rows, id, username);
      if e.Some? {
        return Err(e.value);
      }
      var uid := FindByUsername(users, username).value;
      var l := FindByUserAndActivity(rows, uid, id);
      if l.OneRow? {
        var i := l.index;
        var row := rows[i].(status := ParticipationStatus.REGISTERED, registerTime := Some(now));
        OneRowPerPairUpdate(rows, i, Updated(row, t1, t2));
        SaveRow(i, row, t1, t2, 1);
      } else {
        OneRowPerPairAppend(rows, Created(Participation(nextRowId, uid, id, ParticipationStatus.REGISTERED,
                                                        Some(now), None, None, None, None), t1, t2, t3));
        InsertRegistration(uid, id, now, t1, t2, t3);
      }
      return Ok(ToView(activities[id], users).(participationStatus := Some("REGISTERED")));
    }
  }

  /** The test `findByUser(user)` applies to a row. */
  function ByUser(uid: UserId): Participation -> bool {
    (p: Participation) => p.userId == uid
  }

  /**
   * `findByUser(user)`: the user's rows in table order, each as often as
   * it is stored, i.e. the table filtered by the user.
   */
  function RowsOf(rows: seq<Participation>, uid: UserId): (mine: seq<Participation>)
    ensures mine == Filter(rows, ByUser(uid))
    ensures forall k :: 0 <= k < |mine| ==> mine[k] in rows && mine[k].userId == uid
    ensures forall i :: 0 <= i < |rows| && rows[i].userId == uid ==> rows[i] in mine
    decreases |rows|
  {
    if |rows| == 0 then []
    else
      var m := RowsOf(rows[..|rows| - 1], uid);
      FilterSnoc(rows[..|rows| - 1], rows[|rows| - 1], ByUser(uid));
      assert rows[..|rows| - 1] + [rows[|rows| - 1]] == rows;
      if rows[|rows| - 1].userId == uid then m + [rows[|rows| - 1]] else m
  }
}

/** Concrete runs of the participation workflow on a one-activity, one-student service. */
module StudentServiceRuns {
  import opened Wrappers
  import opened Users
  import opened Activities
  import opened Participations
  import opened StudentServices

  function Lecture(): Activity {
    Activity(1, "lecture", None, "hall", "office", 10, 0, UPCOMING, LECTURE, 0, 1, None)
  }

  function Alice(): User {
    User(7, "alice", "hash", STUDENT, None, None, None)
  }

  /** The facts the first registration's checks look at. */
  lemma FirstRegistrationChecks(s: map<ActivityId, Activity>, u: map<UserId, User>)
    requires u == map[7 := Alice()] && s == map[1 := Lecture()]
    ensures FindByUsername(u, "alice") == Some(7)
    ensures RegisterCheck(s, u, [], 1, "alice") == None
  {
    assert 7 in u && u[7].username == "alice";
    assert FindByUserAndActivity([], 7, 1) == NoRow;
  }

  /** The facts a cancel of alice's only, REGISTERED row looks at. */
  lemma CancelChecks(s: map<ActivityId, Activity>, u: map<UserId, User>, rows: seq<Participation>)
    requires u == map[7 := Alice()] && 1 in s
    requires |rows| == 1 && IsFor(rows[0], 7, 1) && rows[0].status.REGISTERED?
    ensures FindByUserAndActivity(rows, 7, 1) == OneRow(0)
    ensures RegisteredRow(s, u, rows, 1, "alice", CancelNeedsRegistered) == Ok(0)
  {
    assert 7 in u && u[7].username == "alice";
    assert FindByUsername(u, "alice") == Some(7);
  }

  /** A fresh service on which alice has registered for the lecture and cancelled. */
  method RegisteredAndCancelled() returns (s: StudentService)
    ensures fresh(s) && s.Valid()
    ensures s.users == map[7 := Alice()] && s.activities == map[1 := Lecture()]
    ensures |s.rows| == 1 && IsFor(s.rows[0], 7, 1) && s.rows[0].status.CANCELLED?
  {
    s := new StudentService(map[1 := Lecture()], map[7 := Alice()]);
    FirstRegistrationChecks(s.activities, s.users);
    var r1 := s.RegisterActivity(1, "alice", 10, 11, 12, 13);
    assert |s.rows| == 1 && IsFor(s.rows[0], 7, 1) && s.rows[0].status.REGISTERED?;
    assert s.activities[1].currentParticipants == 1;
    CancelChecks(s.activities, s.users, s.rows);
    var r2 := s.CancelActivity(1, "alice", 20, 21, 22);
  }

  /** The facts the second registration's checks look at. */
  lemma {:induction false} ReRegistrationChecks(s: map<ActivityId, Activity>, u: map<UserId, User>, rows: seq<Participation>)
    requires u == map[7 := Alice()] && s == map[1 := Lecture()]
    requires |rows| == 1 && IsFor(rows[0], 7, 1) && !rows[0].status.REGISTERED?
    ensures UniqueAccounts(u) && FindByUsername(u, "alice") == Some(7)
    ensures FindByUserAndActivity(rows, 7, 1) == OneRow(0)
    ensures RegisterCheck(s, u, rows, 1, "alice") == None
  {
    assert 7 in u && u[7].username == "alice";
  }

  /**
   * As written: register, cancel, register again, cancel again. The second
   * registration inserts a second row for the pair, and the lookup of the
   * last cancel then matches two rows.
   */
  method ReRegisterThenCancelFails() returns (r: Result<ActivityView, StudentError>)
    ensures r == Err(NonUniqueResult)
  {
    var s := RegisteredAndCancelled();
    ReRegistrationChecks(s.activities, s.users, s.rows);
    var r3 := s.RegisterActivity(1, "alice", 30, 31, 32, 33);
    assert |s.rows| == 2 && IsFor(s.rows[0], 7, 1) && IsFor(s.rows[1], 7, 1);
    assert FindByUserAndActivity(s.rows, 7, 1) == ManyRows;
    assert RegisteredRow(s.activities, s.users, s.rows, 1, "alice", CancelNeedsRegistered) == Err(NonUniqueResult);
    r := s.CancelActivity(1, "alice", 40, 41, 42);
  }

  /** The same run with the row-reusing registration: the last cancel goes through. */
  method ReRegisterThenCancelSucceeds() returns (r: Result<ActivityView, StudentError>)
    ensures r.Ok? && r.value.participationStatus == Some("CANCELLED") && r.value.currentParticipants == 0
  {
    var s := RegisteredAndCancelled();
    ReRegistrationChecks(s.activities, s.users, s.rows);
    assert OneRowPerPair(s.rows);
    var r3 := s.RegisterActivityReusingRow(1, "alice", 30, 31, 32, 33);
    assert |s.rows| == 1 && IsFor(s.rows[0], 7, 1) && s.rows[0].status.REGISTERED?;
    assert s.activities[1].currentParticipants == 1;
    assert FindByUserAndActivity(s.rows, 7, 1) == OneRow(0);
    assert RegisteredRow(s.activities, s.users, s.rows, 1, "alice", CancelNeedsRegistered) == Ok(0);
    r := s.CancelActivity(1, "alice", 40, 41, 42);
  }
}
