/**
 * The audit log (SystemLog.java, OperationType.java, LogService.java):
 * what one entry holds, how the client address is chosen, and how the
 * log query picks one of seven repository finders.
 */
module Logs {
  import opened Wrappers
  import opened JavaStrings
  import opened Users
  import opened Activities

  type LogId = int

  datatype OperationType =
    | USER_LOGIN | USER_LOGOUT | USER_REGISTER | USER_UPDATE | USER_DELETE
    | CLASS_CREATE | CLASS_UPDATE | CLASS_DELETE | CLASS_ADD_STUDENT | CLASS_REMOVE_STUDENT
    | ACTIVITY_CREATE | ACTIVITY_UPDATE | ACTIVITY_DELETE | ACTIVITY_PARTICIPATE | ACTIVITY_CANCEL
    | SYSTEM_CONFIG

  /** `operationType.name()` */
  function OperationTypeName(t: OperationType): string {
    match t
    case USER_LOGIN => "USER_LOGIN"
    case USER_LOGOUT => "USER_LOGOUT"
    case USER_REGISTER => "USER_REGISTER"
    case USER_UPDATE => "USER_UPDATE"
    case USER_DELETE => "USER_DELETE"
    case CLASS_CREATE => "CLASS_CREATE"
    case CLASS_UPDATE => "CLASS_UPDATE"
    case CLASS_DELETE => "CLASS_DELETE"
    case CLASS_ADD_STUDENT => "CLASS_ADD_STUDENT"
    case CLASS_REMOVE_STUDENT => "CLASS_REMOVE_STUDENT"
    case ACTIVITY_CREATE => "ACTIVITY_CREATE"
    case ACTIVITY_UPDATE => "ACTIVITY_UPDATE"
    case ACTIVITY_DELETE => "ACTIVITY_DELETE"
    case ACTIVITY_PARTICIPATE => "ACTIVITY_PARTICIPATE"
    case ACTIVITY_CANCEL => "ACTIVITY_CANCEL"
    case SYSTEM_CONFIG => "SYSTEM_CONFIG"
  }

  /** One row of system_logs. The operation type is stored as its name. */
  datatype SystemLog = SystemLog(
    id: LogId,
    operationType: string,
    operationDetail: string,
    user: Option<UserId>,
    userRole: Option<Role>,
    ipAddress: string,
    createdAt: Instant)

  /** A header value `getClientIpAddress` accepts: present, non-empty and not "unknown" in any case. */
  predicate Usable(h: Option<string>) {
    h.Some? && h.value != "" && !EqualsIgnoreCase("unknown", h.value)
  }

  /**
   * `getClientIpAddress`: starting from X-Forwarded-For, each unusable value
   * is replaced by the next header (Proxy-Client-IP, then WL-Proxy-Client-IP)
   * and finally by the remote address.
   */
  method GetClientIpAddress(forwardedFor: Option<string>, proxyClientIp: Option<string>,
                            wlProxyClientIp: Option<string>, remoteAddr: string) returns (ip: string)
    // the first usable header wins
    ensures Usable(forwardedFor) ==> ip == forwardedFor.value
    ensures !Usable(forwardedFor) && Usable(proxyClientIp) ==> ip == proxyClientIp.value
    ensures !Usable(forwardedFor) && !Usable(proxyClientIp) && Usable(wlProxyClientIp) ==> ip == wlProxyClientIp.value
    // the remote address only when no header is usable
    ensures ip == remoteAddr <== !Usable(forwardedFor) && !Usable(proxyClientIp) && !Usable(wlProxyClientIp)
    ensures Usable(Some(ip)) || ip == remoteAddr
  {
    var address := forwardedFor;
    if !Usable(address) {
      address := proxyClientIp;
    }
    if !Usable(address) {
      address := wlProxyClientIp;
    }
    if !Usable(address) {
      address := Some(remoteAddr);
    }
    ip := address.value;
  }

  /** The ids of `order` whose log `keep` accepts, in the same order: a derived finder. */
  function Where(logs: map<LogId, SystemLog>, order: seq<LogId>, keep: SystemLog -> bool): (r: seq<LogId>)
    requires forall k :: 0 <= k < |order| ==> order[k] in logs
    ensures forall k :: 0 <= k < |r| ==> r[k] in order && keep(logs[r[k]])
    ensures forall k :: 0 <= k < |order| && keep(logs[order[k]]) ==> order[k] in r
    ensures |r| <= |order|
    decreases |order|
  {
    if |order| == 0 then []
    else
      var rest := Where(logs, order[1..], keep);
      if keep(logs[order[0]]) then [order[0]] + rest else rest
  }

  /** Two filters that agree on every listed log select the same ids. */
  lemma {:induction false} WhereAgree(logs: map<LogId, SystemLog>, order: seq<LogId>, p: SystemLog -> bool, q: SystemLog -> bool)
    requires forall k :: 0 <= k < |order| ==> order[k] in logs
    requires forall k :: 0 <= k < |order| ==> p(logs[order[k]]) == q(logs[order[k]])
    ensures Where(logs, order, p) == Where(logs, order, q)
    decreases |order|
  {
    if |order| > 0 {
      WhereAgree(logs, order[1..], p, q);
    }
  }

  /** `CreatedAtBetween(s, e)`: both ends included. */
  predicate Between(t: Instant, s: Instant, e: Instant) {
    s <= t <= e
  }

  /** The conditions the derived finders of SystemLogRepository compose. */
  function TypeIs(t: string): SystemLog -> bool {
    (l: SystemLog) => l.operationType == t
  }

  /** A role condition only matches rows that carry a role. */
  function RoleIs(r: Role): SystemLog -> bool {
    (l: SystemLog) => l.userRole == Some(r)
  }

  function CreatedBetween(s: Instant, e: Instant): SystemLog -> bool {
    (l: SystemLog) => Between(l.createdAt, s, e)
  }

  function Both(p: SystemLog -> bool, q: SystemLog -> bool): SystemLog -> bool {
    (l: SystemLog) => p(l) && q(l)
  }

  /**
   * `findLogs`: the eight-way dispatch onto the repository's finders. The
   * time range applies only when both ends are given. Whatever branch the
   * dispatch takes, it returns exactly the listed logs that satisfy every
   * supplied filter, in the repository's order.
   */
  function FindLogs(logs: map<LogId, SystemLog>, order: seq<LogId>, operationType: Option<string>,
                    userRole: Option<Role>, startTime: Option<Instant>, endTime: Option<Instant>): (r: seq<LogId>)
    requires forall k :: 0 <= k < |order| ==> order[k] in logs
    ensures r == Where(logs, order, l => Matches(l, operationType, userRole, startTime, endTime))
  {
    var m := (l: SystemLog) => Matches(l, operationType, userRole, startTime, endTime);
    if operationType.Some? && userRole.Some? && startTime.Some? && endTime.Some? then
      var p := Both(Both(TypeIs(operationType.value), RoleIs(userRole.value)),
                    CreatedBetween(startTime.value, endTime.value));
      WhereAgree(logs, order, p, m);
      Where(logs, order, p)
    else if operationType.Some? && userRole.Some? then
      var p := Both(TypeIs(operationType.value), RoleIs(userRole.value));
      WhereAgree(logs, order, p, m);
      Where(logs, order, p)
    else if operationType.Some? && startTime.Some? && endTime.Some? then
      var p := Both(TypeIs(operationType.value), CreatedBetween(startTime.value, endTime.value));
      WhereAgree(logs, order, p, m);
      Where(logs, order, p)
    else if userRole.Some? && startTime.Some? && endTime.Some? then
      var p := Both(RoleIs(userRole.value), CreatedBetween(startTime.value, endTime.value));
      WhereAgree(logs, order, p, m);
      Where(logs, order, p)
    else if operationType.Some? then
      WhereAgree(logs, order, TypeIs(operationType.value), m);
      Where(logs, order, TypeIs(operationType.value))
    else if userRole.Some? then
      WhereAgree(logs, order, RoleIs(userRole.value), m);
      Where(logs, order, RoleIs(userRole.value))
    else if startTime.Some? && endTime.Some? then
      WhereAgree(logs, order, CreatedBetween(startTime.value, endTime.value), m);
      Where(logs, order, CreatedBetween(startTime.value, endTime.value))
    else
      WhereAll(logs, order);
      WhereAgree(logs, order, (l: SystemLog) => true, m);
      order
  }

  /** A log satisfies every filter that was supplied; a lone time bound is no filter. */
  predicate Matches(l: SystemLog, operationType: Option<string>, userRole: Option<Role>,
                    startTime: Option<Instant>, endTime: Option<Instant>)
  {
    (operationType.Some? ==> l.operationType == operationType.value) &&
    (userRole.Some? ==> l.userRole == userRole) &&
    (startTime.Some? && endTime.Some? ==> Between(l.createdAt, startTime.value, endTime.value))
  }

  /** With no filter at all every row comes back. */
  lemma {:induction false} WhereAll(logs: map<LogId, SystemLog>, order: seq<LogId>)
    requires forall k :: 0 <= k < |order| ==> order[k] in logs
    ensures Where(logs, order, (l: SystemLog) => true) == order
    decreases |order|
  {
    if |order| > 0 {
      WhereAll(logs, order[1..]);
    }
  }

  datatype LogError = LogNotFound

  function LogErrorMessage(e: LogError): string {
    "日志记录不存在"
  }

  /** The entry `createLog` builds: the type's name, and the user and role only when a user is given. */
  function NewLog(id: LogId, operationType: OperationType, detail: string, user: Option<User>,
                  ipAddress: string, now: Instant): (l: SystemLog)
    ensures l.id == id && l.operationType == OperationTypeName(operationType)
    ensures l.operationDetail == detail && l.ipAddress == ipAddress && l.createdAt == now
    ensures l.user.Some? <==> user.Some?
    ensures l.userRole.Some? <==> user.Some?
    ensures user.Some? ==> l.user == Some(user.value.id) && l.userRole == Some(user.value.role)
  {
    SystemLog(id, OperationTypeName(operationType), detail,
              if user.Some? then Some(user.value.id) else None,
              if user.Some? then Some(user.value.role) else None,
              ipAddress, now)
  }

  /** The system_logs table as LogService sees it. */
  class LogService {
    /** systemLogRepository, by id */
    var logs: map<LogId, SystemLog>
    var nextLogId: LogId

    ghost predicate Valid()
      reads this
    {
      forall i :: i in logs ==> logs[i].id == i && i < nextLogId
    }

    constructor ()
      ensures Valid() && logs == map[]
    {
      logs := map[];
      nextLogId := 1;
    }

    /** `createLog`: saves exactly one new entry and returns it. */
    method CreateLog(operationType: OperationType, detail: string, user: Option<User>, ipAddress: string, now: Instant)
      returns (l: SystemLog)
      requires Valid()
      modifies this
      ensures Valid()
      ensures l == NewLog(old(nextLogId), operationType, detail, user, ipAddress, now)
      ensures l.id !in old(logs) && logs == old(logs)[l.id := l]
    {
      l := NewLog(nextLogId, operationType, detail, user, ipAddress, now);
      logs := logs[l.id := l];
      nextLogId := nextLogId + 1;
    }

    /** `getLogById` */
    function GetLogById(id: LogId): (r: Result<SystemLog, LogError>)
      reads this
      ensures r.Ok? <==> id in logs
      ensures r.Ok? ==> r.value == logs[id]
    {
      if id in logs then Ok(logs[id]) else Err(LogNotFound)
    }
  }
}
