/**
 * The session token and the three places that read it. AuthController.login
 * issues `username.role.uuid`; the browser sends it back as
 * `Authorization: Bearer <token>`. JwtAuthenticationFilter, ClassController
 * and UserController each take it apart by their own rules.
 */
module Tokens {
  import opened Wrappers
  import opened JavaStrings
  import opened Users

  const BearerPrefix: string := "Bearer "

  /** What a parsed token says about its bearer: segment 0 and segment 1. */
  datatype Caller = Caller(username: string, role: string)

  /**
   * `String.format("%s.%s.%s", username, role, uuid)` of AuthController.login;
   * `uuid` is `UUID.randomUUID().toString()`.
   */
  function LoginToken(username: string, role: Role, uuid: string): (t: string)
    ensures t == username + "." + RoleName(role) + "." + uuid
    ensures StartsWith(t, username)
  {
    var t := username + "." + RoleName(role) + "." + uuid;
    assert t[..|username|] == username;
    t
  }

  /** A random UUID's text: 36 hex digits and dashes, so never empty and dot-free. */
  predicate UuidText(uuid: string) {
    uuid != "" && '.' !in uuid
  }

  /** `if (token.startsWith("Bearer ")) token = token.substring(7);` */
  function StripBearer(token: string): (r: string)
    ensures StartsWith(token, BearerPrefix) ==> token == BearerPrefix + r
    ensures !StartsWith(token, BearerPrefix) ==> r == token
  {
    if StartsWith(token, BearerPrefix) then Substring(token, 7) else token
  }

  /**
   * ClassController's parse: strip one "Bearer ", split at dots, and demand
   * at least three segments (a rejected token reads "无效的认证信息").
   */
  function ClassTokenCaller(token: string): (r: Option<Caller>)
    ensures r.Some? <==> |Split(StripBearer(token), '.')| >= 3
    ensures r.Some? ==>
      r.value.username == Split(StripBearer(token), '.')[0] && r.value.role == Split(StripBearer(token), '.')[1]
  {
    var parts := Split(StripBearer(token), '.');
    if |parts| < 3 then None else Some(Caller(parts[0], parts[1]))
  }

  /**
   * JwtAuthenticationFilter.doFilterInternal: a header that starts with
   * "Bearer " and whose remainder splits into at least two segments builds
   * an authentication whose principal is segment 0 and whose single
   * authority is segment 1, verbatim. `new SimpleGrantedAuthority` refuses a
   * segment 1 without text, and the catch then clears the context, so such a
   * header sets nothing, like any other header.
   */
  function FilterAuthentication(header: Option<string>): (r: Option<Caller>)
    ensures r.Some? <==>
      header.Some? && StartsWith(header.value, BearerPrefix) &&
      var parts := Split(Substring(header.value, 7), '.');
      |parts| >= 2 && HasText(parts[1])
    ensures r.Some? ==>
      var parts := Split(Substring(header.value, 7), '.');
      r.value == Caller(parts[0], parts[1])
  {
    if header.None? || !StartsWith(header.value, BearerPrefix) then None
    else
      var parts := Split(Substring(header.value, 7), '.');
      if |parts| >= 2 && HasText(parts[1]) then Some(Caller(parts[0], parts[1])) else None
  }

  /**
   * The filter's whole effect on the security context. The request always
   * continues down the chain; whether it is then let through is decided by
   * the rule table, from what is set here. The one exception the parse can
   * raise, a blank authority, clears the context, which is where it started,
   * since the filter sets it last.
   */
  datatype FilterOutcome = FilterOutcome(authentication: Option<Caller>, continues: bool)

  function DoFilter(header: Option<string>): (r: FilterOutcome)
    ensures r.continues
    ensures r.authentication == FilterAuthentication(header)
  {
    FilterOutcome(FilterAuthentication(header), true)
  }

  /**
   * A token whose role segment is empty or blank leaves the request
   * anonymous, although it has enough segments.
   */
  lemma BlankAuthorityStaysAnonymous(u: string, blank: string, x: string)
    requires '.' !in u && '.' !in blank && '.' !in x && x != ""
    requires forall i :: 0 <= i < |blank| ==> IsWhitespace(blank[i])
    ensures |Split(u + "." + blank + "." + x, '.')| == 3
    ensures FilterAuthentication(Some(BearerPrefix + (u + "." + blank + "." + x))).None?
  {
    var t := u + "." + blank + "." + x;
    var h := BearerPrefix + t;
    assert StartsWith(h, BearerPrefix) by { assert h[..|BearerPrefix|] == BearerPrefix; }
    assert Substring(h, 7) == t;
    assert t == u + ['.'] + blank + ['.'] + x;
    SplitThree(u, blank, x, '.');
  }

  /**
   * A token issued at login, sent back with the "Bearer " prefix, is read by
   * the filter as the same username and the role's name, provided the
   * username has no dot in it.
   */
  lemma LoginTokenPassesFilter(username: string, role: Role, uuid: string)
    requires '.' !in username && UuidText(uuid)
    ensures FilterAuthentication(Some(BearerPrefix + LoginToken(username, role, uuid))) ==
            Some(Caller(username, RoleName(role)))
  {
    var t := LoginToken(username, role, uuid);
    var h := BearerPrefix + t;
    assert StartsWith(h, BearerPrefix) by { assert h[..|BearerPrefix|] == BearerPrefix; }
    assert Substring(h, 7) == t;
    RoleNameHasNoDot(role);
    assert t == username + ['.'] + RoleName(role) + ['.'] + uuid;
    SplitThree(username, RoleName(role), uuid, '.');
    assert !IsWhitespace(RoleName(role)[0]);
  }

  /** The same token satisfies ClassController's three-segment rule with the same reading. */
  lemma LoginTokenPassesClassController(username: string, role: Role, uuid: string)
    requires '.' !in username && UuidText(uuid)
    ensures ClassTokenCaller(BearerPrefix + LoginToken(username, role, uuid)) ==
            Some(Caller(username, RoleName(role)))
  {
    var t := LoginToken(username, role, uuid);
    var h := BearerPrefix + t;
    assert StartsWith(h, BearerPrefix) by { assert h[..|BearerPrefix|] == BearerPrefix; }
    assert StripBearer(h) == t;
    RoleNameHasNoDot(role);
    assert t == username + ['.'] + RoleName(role) + ['.'] + uuid;
    SplitThree(username, RoleName(role), uuid, '.');
  }

  lemma RoleNameHasNoDot(role: Role)
    ensures '.' !in RoleName(role)
  {
  }

  /**
   * The two thresholds differ: "Bearer a.b" authenticates the filter's
   * caller "a" with authority "b", yet ClassController rejects the token.
   */
  lemma TwoSegmentsSplitTheReaders()
    ensures FilterAuthentication(Some("Bearer a.b")) == Some(Caller("a", "b"))
    ensures ClassTokenCaller("Bearer a.b").None?
  {
    var h := "Bearer a.b";
    assert StartsWith(h, BearerPrefix) by { assert h[..7] == BearerPrefix; }
    assert Substring(h, 7) == "a.b";
    assert "a.b" == "a" + ['.'] + "b";
    SegmentsAppend("a", '.', "b");
    SegmentsOfFree("b", '.');
    assert Segments("a.b", '.') == ["a", "b"];
    assert Split("a.b", '.') == ["a", "b"];
    assert !IsWhitespace("b"[0]);
  }

  /**
   * UserController as written: `token.split("\\.")[0]` of the raw header,
   * so the "Bearer " prefix stays part of the username. A header made only
   * of dots has no segment at all and the lookup fails with an index error.
   */
  function HeaderUsername(header: string): (r: Option<string>)
    ensures r.Some? <==> |Split(header, '.')| > 0
    ensures r.Some? ==> r.value == Split(header, '.')[0]
  {
    var parts := Split(header, '.');
    if |parts| == 0 then None else Some(parts[0])
  }

  /** The header the browser sends for a login token makes UserController look up "Bearer " + username. */
  lemma HeaderUsernameKeepsBearer(username: string, role: Role, uuid: string)
    requires '.' !in username && UuidText(uuid)
    ensures HeaderUsername(BearerPrefix + LoginToken(username, role, uuid)) == Some(BearerPrefix + username)
    ensures HeaderUsername(BearerPrefix + LoginToken(username, role, uuid)) != Some(username)
  {
    var h := BearerPrefix + LoginToken(username, role, uuid);
    RoleNameHasNoDot(role);
    assert '.' !in BearerPrefix;
    assert h == (BearerPrefix + username) + ['.'] + RoleName(role) + ['.'] + uuid;
    SplitThree(BearerPrefix + username, RoleName(role), uuid, '.');
    assert |BearerPrefix + username| != |username|;
  }

  /**
   * The evident intent, as the filter and ClassController do it: strip the
   * "Bearer " prefix before taking segment 0.
   */
  function BearerUsername(header: string): (r: Option<string>)
    ensures r.Some? <==> |Split(StripBearer(header), '.')| > 0
    ensures r.Some? ==> r.value == Split(StripBearer(header), '.')[0]
  {
    HeaderUsername(StripBearer(header))
  }

  /** With the prefix stripped, the browser's header names the user who logged in. */
  lemma BearerUsernameReadsLogin(username: string, role: Role, uuid: string)
    requires '.' !in username && UuidText(uuid)
    ensures BearerUsername(BearerPrefix + LoginToken(username, role, uuid)) == Some(username)
  {
    var t := LoginToken(username, role, uuid);
    var h := BearerPrefix + t;
    assert StartsWith(h, BearerPrefix) by { assert h[..|BearerPrefix|] == BearerPrefix; }
    assert StripBearer(h) == t;
    RoleNameHasNoDot(role);
    assert t == username + ['.'] + RoleName(role) + ['.'] + uuid;
    SplitThree(username, RoleName(role), uuid, '.');
  }
}
