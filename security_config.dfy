/**
 * SecurityConfig.securityFilterChain: the ordered table of path rules that
 * decides, from the authentication JwtAuthenticationFilter set, whether a
 * request reaches its controller. Rules are tried in order and the first
 * whose matcher accepts the path decides.
 */
module SecurityRules {
  import opened Wrappers
  import opened JavaStrings
  import opened Users
  import opened Tokens

  /** What a rule demands of the caller. */
  datatype Access = PermitAll | HasAuthority(authority: string) | Authenticated

  /** `requestMatchers(patterns...)` with patterns that end in a double-star segment, or `anyRequest()`. */
  datatype Matcher = Paths(prefixes: seq<string>) | AnyRequest

  datatype Rule = Rule(matcher: Matcher, access: Access)

  /** A pattern "prefix" plus a double-star segment accepts the prefix itself and everything below it. */
  predicate UnderPrefix(path: string, prefix: string) {
    path == prefix || StartsWith(path, prefix + "/")
  }

  predicate RuleMatches(r: Rule, path: string) {
    match r.matcher
    case AnyRequest => true
    case Paths(ps) => exists k :: 0 <= k < |ps| && UnderPrefix(path, ps[k])
  }

  /** The table as configured. */
  const Rules: seq<Rule> := [
    Rule(Paths(["/api/auth", "/assets", "/uploads"]), PermitAll),
    Rule(Paths(["/api/student"]), HasAuthority("STUDENT")),
    Rule(Paths(["/api/teacher"]), HasAuthority("TEACHER")),
    Rule(Paths(["/api/admin"]), HasAuthority("ADMIN")),
    Rule(AnyRequest, Authenticated)
  ]

  /** The index of the first rule that matches the path, if any. */
  function FirstMatch(rules: seq<Rule>, path: string): (r: Option<nat>)
    ensures r.Some? ==> r.value < |rules| && RuleMatches(rules[r.value], path)
    ensures r.Some? ==> forall j :: 0 <= j < r.value ==> !RuleMatches(rules[j], path)
    ensures r.None? ==> forall j :: 0 <= j < |rules| ==> !RuleMatches(rules[j], path)
    decreases |rules|
  {
    if |rules| == 0 then None
    else if RuleMatches(rules[0], path) then Some(0)
    else
      match FirstMatch(rules[1..], path)
      case None => None
      case Some(k) => Some(k + 1)
  }

  /** Whether the first matching rule lets this caller through; no rule at all denies. */
  function Permits(rules: seq<Rule>, path: string, auth: Option<Caller>): (ok: bool)
    ensures ok <==>
              (FirstMatch(rules, path).Some? &&
               match rules[FirstMatch(rules, path).value].access
               case PermitAll => true
               case HasAuthority(a) => auth.Some? && auth.value.role == a
               case Authenticated => auth.Some?)
  {
    match FirstMatch(rules, path)
    case None => false
    case Some(k) =>
      match rules[k].access
      case PermitAll => true
      case HasAuthority(a) => auth.Some? && auth.value.role == a
      case Authenticated => auth.Some?
  }

  /** A request as it reaches the controller: the filter's reading of the header, then the table. */
  function RequestAllowed(header: Option<string>, path: string): bool {
    Permits(Rules, path, DoFilter(header).authentication)
  }

  /** Every path is matched by some rule of the table, since its last rule takes any request. */
  lemma EveryPathHasARule(path: string)
    ensures FirstMatch(Rules, path).Some?
  {
    assert RuleMatches(Rules[4], path);
  }

  lemma {:induction false} FirstMatchIsIndex(rules: seq<Rule>, path: string, k: nat)
    requires k < |rules| && RuleMatches(rules[k], path)
    requires forall j :: 0 <= j < k ==> !RuleMatches(rules[j], path)
    ensures FirstMatch(rules, path) == Some(k)
    decreases k
  {
    if k > 0 {
      assert !RuleMatches(rules[0], path);
      assert rules[1..][k - 1] == rules[k];
      forall j | 0 <= j < k - 1
        ensures !RuleMatches(rules[1..][j], path)
      {
        assert rules[1..][j] == rules[j + 1];
      }
      FirstMatchIsIndex(rules[1..], path, k - 1);
    }
  }

  /** Paths outside the four public and role prefixes need no more than some authentication. */
  lemma OtherPathsNeedAuthentication(path: string, auth: Option<Caller>)
    requires !UnderPrefix(path, "/api/auth") && !UnderPrefix(path, "/assets") && !UnderPrefix(path, "/uploads")
    requires !UnderPrefix(path, "/api/student") && !UnderPrefix(path, "/api/teacher") && !UnderPrefix(path, "/api/admin")
    ensures Permits(Rules, path, auth) <==> auth.Some?
  {
    assert !RuleMatches(Rules[0], path) by {
      var ps := ["/api/auth", "/assets", "/uploads"];
      assert forall k :: 0 <= k < |ps| ==> !UnderPrefix(path, ps[k]);
    }
    assert !RuleMatches(Rules[1], path) by { assert forall k :: 0 <= k < 1 ==> ["/api/student"][k] == "/api/student"; }
    assert !RuleMatches(Rules[2], path) by { assert forall k :: 0 <= k < 1 ==> ["/api/teacher"][k] == "/api/teacher"; }
    assert !RuleMatches(Rules[3], path) by { assert forall k :: 0 <= k < 1 ==> ["/api/admin"][k] == "/api/admin"; }
    FirstMatchIsIndex(Rules, path, 4);
  }

  /** The public prefixes are let through with or without a token. */
  lemma PublicPathsArePermitted(path: string, auth: Option<Caller>)
    requires UnderPrefix(path, "/api/auth") || UnderPrefix(path, "/assets") || UnderPrefix(path, "/uploads")
    ensures Permits(Rules, path, auth)
  {
    var ps := ["/api/auth", "/assets", "/uploads"];
    assert UnderPrefix(path, ps[0]) || UnderPrefix(path, ps[1]) || UnderPrefix(path, ps[2]);
    FirstMatchIsIndex(Rules, path, 0);
  }

  /** Under /api/student/ exactly the callers whose authority is the string "STUDENT" pass. */
  lemma StudentAreaNeedsStudent(rest: string, auth: Option<Caller>)
    ensures Permits(Rules, "/api/student/" + rest, auth) <==> auth.Some? && auth.value.role == "STUDENT"
  {
    var path := "/api/student/" + rest;
    assert !RuleMatches(Rules[0], path) by {
      var ps := ["/api/auth", "/assets", "/uploads"];
      assert path[5] == 's' && path[1] == 'a' && path[4] == '/';
      forall k | 0 <= k < |ps| ensures !UnderPrefix(path, ps[k]) {
        if k == 0 { assert !StartsWith(path, "/api/auth/") by { assert path[5] != "/api/auth/"[5]; } }
        else if k == 1 { assert !StartsWith(path, "/assets/") by { assert path[2] != "/assets/"[2]; } }
        else { assert !StartsWith(path, "/uploads/") by { assert path[1] != "/uploads/"[1]; } }
      }
    }
    assert RuleMatches(Rules[1], path) by {
      assert StartsWith(path, "/api/student/") by { assert path[..13] == "/api/student/"; }
      assert UnderPrefix(path, ["/api/student"][0]);
    }
    FirstMatchIsIndex(Rules, path, 1);
  }

  /** Under /api/teacher/ exactly the callers whose authority is the string "TEACHER" pass. */
  lemma TeacherAreaNeedsTeacher(rest: string, auth: Option<Caller>)
    ensures Permits(Rules, "/api/teacher/" + rest, auth) <==> auth.Some? && auth.value.role == "TEACHER"
  {
    var path := "/api/teacher/" + rest;
    assert !RuleMatches(Rules[0], path) by {
      var ps := ["/api/auth", "/assets", "/uploads"];
      forall k | 0 <= k < |ps| ensures !UnderPrefix(path, ps[k]) {
        if k == 0 { assert !StartsWith(path, "/api/auth/") by { assert path[5] != "/api/auth/"[5]; } }
        else if k == 1 { assert !StartsWith(path, "/assets/") by { assert path[2] != "/assets/"[2]; } }
        else { assert !StartsWith(path, "/uploads/") by { assert path[1] != "/uploads/"[1]; } }
      }
    }
    assert !RuleMatches(Rules[1], path) by {
      assert !StartsWith(path, "/api/student/") by { assert path[5] != "/api/student/"[5]; }
      assert forall k :: 0 <= k < 1 ==> ["/api/student"][k] == "/api/student";
    }
    assert RuleMatches(Rules[2], path) by {
      assert StartsWith(path, "/api/teacher/") by { assert path[..13] == "/api/teacher/"; }
      assert UnderPrefix(path, ["/api/teacher"][0]);
    }
    FirstMatchIsIndex(Rules, path, 2);
  }

  /** Under /api/admin/ exactly the callers whose authority is the string "ADMIN" pass. */
  lemma AdminAreaNeedsAdmin(rest: string, auth: Option<Caller>)
    ensures Permits(Rules, "/api/admin/" + rest, auth) <==> auth.Some? && auth.value.role == "ADMIN"
  {
    var path := "/api/admin/" + rest;
    assert !RuleMatches(Rules[0], path) by {
      var ps := ["/api/auth", "/assets", "/uploads"];
      forall k | 0 <= k < |ps| ensures !UnderPrefix(path, ps[k]) {
        if k == 0 { assert !StartsWith(path, "/api/auth/") by { assert path[6] != "/api/auth/"[6]; } }
        else if k == 1 { assert !StartsWith(path, "/assets/") by { assert path[2] != "/assets/"[2]; } }
        else { assert !StartsWith(path, "/uploads/") by { assert path[1] != "/uploads/"[1]; } }
      }
    }
    assert !RuleMatches(Rules[1], path) by {
      assert !StartsWith(path, "/api/student/") by { assert path[5] != "/api/student/"[5]; }
      assert forall k :: 0 <= k < 1 ==> ["/api/student"][k] == "/api/student";
    }
    assert !RuleMatches(Rules[2], path) by {
      assert !StartsWith(path, "/api/teacher/") by { assert path[5] != "/api/teacher/"[5]; }
      assert forall k :: 0 <= k < 1 ==> ["/api/teacher"][k] == "/api/teacher";
    }
    assert RuleMatches(Rules[3], path) by {
      assert StartsWith(path, "/api/admin/") by { assert path[..11] == "/api/admin/"; }
      assert UnderPrefix(path, ["/api/admin"][0]);
    }
    FirstMatchIsIndex(Rules, path, 3);
  }

  /**
   * End to end: with the header the browser sends after login, a request
   * under /api/teacher/ is let through exactly for a TEACHER account.
   */
  lemma LoggedInTeacherArea(username: string, role: Role, uuid: string, rest: string)
    requires '.' !in username && UuidText(uuid)
    ensures RequestAllowed(Some(BearerPrefix + LoginToken(username, role, uuid)), "/api/teacher/" + rest) <==>
            role == TEACHER
  {
    LoginTokenPassesFilter(username, role, uuid);
    TeacherAreaNeedsTeacher(rest, Some(Caller(username, RoleName(role))));
  }

  /** Without an Authorization header only the public prefixes are reachable. */
  lemma AnonymousOnlyPublic(path: string)
    ensures RequestAllowed(None, path) ==>
      UnderPrefix(path, "/api/auth") || UnderPrefix(path, "/assets") || UnderPrefix(path, "/uploads")
  {
    var k := FirstMatch(Rules, path);
    EveryPathHasARule(path);
    if RequestAllowed(None, path) {
      assert Rules[k.value].access.PermitAll?;
      assert k.value == 0;
      var ps := ["/api/auth", "/assets", "/uploads"];
      var i :| 0 <= i < |ps| && UnderPrefix(path, ps[i]);
    }
  }
}
