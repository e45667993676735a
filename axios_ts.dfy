/**
 * frontend/src/utils/axios.ts: the HTTP client every TypeScript page uses.
 * Its request interceptor sets the JSON content type (leaving multipart
 * uploads alone) and the bearer token; its response interceptors save the
 * login token and, for a 401 outside the auth pages, forget the session.
 */
module AxiosTs {
  import opened Wrappers
  import opened JavaStrings
  import opened Scripts
  import opened Browser
  import Tokens

  const ContentType: string := "Content-Type"
  const Authorization: string := "Authorization"
  const Json: string := "application/json"
  const Multipart: string := "multipart/form-data"
  const LoginUrl: string := "/api/auth/login"

  /** The request being sent; the interceptor edits its headers in place. */
  class RequestConfig {
    var headers: map<string, string>
    const url: Option<string>

    constructor (headers: map<string, string>, url: Option<string>)
      ensures this.headers == headers && this.url == url
    {
      this.headers := headers;
      this.url := url;
    }
  }

  /** `headers['Content-Type'].includes('multipart/form-data')` on a set, non-empty header. */
  predicate KeepsContentType(headers: map<string, string>) {
    ContentType in headers && headers[ContentType] != "" && Contains(headers[ContentType], Multipart)
  }

  /** The Authorization header for a stored token: "Bearer " followed by the token. */
  function WithAuthorization(headers: map<string, string>, token: Option<string>): (h: map<string, string>)
    ensures Truthy(token) ==> h == headers[Authorization := "Bearer " + token.value]
    ensures !Truthy(token) ==> h == headers
  {
    if Truthy(token) then headers[Authorization := "Bearer " + token.value] else headers
  }

  /** The headers the request leaves with. */
  function OutgoingHeaders(headers: map<string, string>, token: Option<string>): (h: map<string, string>)
    ensures ContentType in h && (h[ContentType] == Json || KeepsContentType(headers))
    ensures KeepsContentType(headers) ==> h[ContentType] == headers[ContentType]
    ensures Truthy(token) ==> Authorization in h && h[Authorization] == "Bearer " + token.value
    ensures !Truthy(token) ==> (Authorization in h <==> Authorization in headers) &&
                               (Authorization in h ==> h[Authorization] == headers[Authorization])
    ensures forall k :: k in headers && k != ContentType && k != Authorization ==> k in h && h[k] == headers[k]
    ensures forall k :: k in h ==> k in headers || k == ContentType || k == Authorization
  {
    var typed := if KeepsContentType(headers) then headers else headers[ContentType := Json];
    WithAuthorization(typed, token)
  }

  /** The request interceptor: it edits the config's headers and hands the config on. */
  method OnRequest(config: RequestConfig, storage: LocalStorage)
    modifies config
    ensures config.headers == OutgoingHeaders(old(config.headers), storage.token)
  {
    if !KeepsContentType(config.headers) {
      config.headers := config.headers[ContentType := Json];
    }
    var token := storage.token;
    if Truthy(token) {
      config.headers := config.headers[Authorization := "Bearer " + token.value];
    }
  }

  /** A successful response: the url it was sent to and the `token` of its body, if any. */
  datatype Reply = Reply(url: Option<string>, token: Option<string>)

  /** The token the success interceptor saves: only the login answer's, and only a non-empty one. */
  function SavedToken(reply: Reply): (t: Option<string>)
    ensures t.Some? <==> reply.url == Some(LoginUrl) && Truthy(reply.token)
    ensures t.Some? ==> t == reply.token
  {
    if reply.url == Some(LoginUrl) && Truthy(reply.token) then reply.token else None
  }

  method OnResponse(reply: Reply, storage: LocalStorage)
    modifies storage
    ensures storage.user == old(storage.user) && storage.rememberedUser == old(storage.rememberedUser)
    ensures storage.token == (if SavedToken(reply).Some? then SavedToken(reply) else old(storage.token))
  {
    if reply.url == Some(LoginUrl) && Truthy(reply.token) {
      storage.token := reply.token;
    }
  }

  /**
   * The token saved from the login answer goes out on the next request as
   * `Authorization: Bearer <token>`, the form the backend's filter strips.
   */
  lemma SavedTokenIsSentBack(reply: Reply, headers: map<string, string>)
    requires SavedToken(reply).Some?
    ensures OutgoingHeaders(headers, SavedToken(reply))[Authorization] == Tokens.BearerPrefix + reply.token.value
  {
  }

  /** A failed request: the HTTP status when a response came back, and the url it was sent to. */
  datatype Failure = Failure(status: Option<int>, url: Option<string>)

  const AuthPaths: seq<string> := ["/api/auth/login", "/api/auth/register", "/api/auth/logout"]

  /** `authPaths.some(path => url.includes(path))`; without a url no path is included. */
  predicate IsAuthPath(url: Option<string>) {
    url.Some? && exists i :: 0 <= i < |AuthPaths| && Contains(url.value, AuthPaths[i])
  }

  predicate IsLoginPage(pathname: string) {
    pathname == "/login" || pathname == "/register"
  }

  /** Whether the error interceptor forgets the session: a 401 outside the auth urls and pages. */
  function ForgetsSession(failure: Failure, pathname: string): (forget: bool)
    ensures forget <==> failure.status == Some(401) && !IsAuthPath(failure.url) && !IsLoginPage(pathname)
  {
    match failure.status
    case None => false
    case Some(s) => s == 401 && !IsAuthPath(failure.url) && !IsLoginPage(pathname)
  }

  /** Any other status leaves the session alone, however the request went. */
  lemma OnlyUnauthorizedForgets(failure: Failure, pathname: string)
    requires failure.status.Some? && failure.status.value in {400, 403, 404, 500}
    ensures !ForgetsSession(failure, pathname)
  {
  }

  /** The login request itself never clears the session, whatever it answers. */
  lemma LoginFailureKeepsSession(status: int, pathname: string)
    ensures !ForgetsSession(Failure(Some(status), Some(LoginUrl)), pathname)
  {
    assert Contains(LoginUrl, AuthPaths[0]) by { ContainsItself(LoginUrl); }
  }

  /**
   * The error interceptor: the session is forgotten when `ForgetsSession`
   * says so, and a redirect to /login is scheduled then; either way the
   * same error is rejected again to the caller.
   */
  method OnResponseError(failure: Failure, pathname: string, storage: LocalStorage)
    returns (rejected: Failure, redirectScheduled: bool)
    modifies storage
    ensures rejected == failure
    ensures redirectScheduled == ForgetsSession(failure, pathname)
    ensures storage.rememberedUser == old(storage.rememberedUser)
    ensures ForgetsSession(failure, pathname) ==> storage.token.None? && storage.user.None?
    ensures !ForgetsSession(failure, pathname) ==>
      storage.token == old(storage.token) && storage.user == old(storage.user)
  {
    rejected := failure;
    redirectScheduled := false;
    if failure.status.None? {
      return;
    }
    var isAuthPath := IsAuthPath(failure.url);
    var isLoginPage := pathname == "/login" || pathname == "/register";
    if failure.status.value == 401 && !isAuthPath && !isLoginPage {
      storage.token := None;
      storage.user := None;
      redirectScheduled := true;
    }
  }
}
