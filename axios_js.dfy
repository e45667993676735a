/**
 * frontend/src/utils/axios.js: the older JavaScript variant of the client.
 * It sets only the bearer header, and its error interceptor turns each
 * failure into one toast message; a 401 forgets the token (not the user)
 * and sends the browser to /login at once.
 */
module AxiosJs {
  import opened Wrappers
  import opened Scripts
  import opened Browser
  import opened AxiosTs

  /** The request interceptor: the bearer header only, the content type is left as configured. */
  method OnRequest(config: RequestConfig, storage: LocalStorage)
    modifies config
    ensures config.headers == WithAuthorization(old(config.headers), storage.token)
  {
    var token := storage.token;
    if Truthy(token) {
      config.headers := config.headers[Authorization := "Bearer " + token.value];
    }
  }

  /** `error.response.data`: nothing, a plain text, or an object (its `message` and its JSON text). */
  datatype ResponseData = NoData | TextData(text: string) | ObjectData(message: Option<string>, json: string)

  /** A failed request: answered with a status, sent without an answer, or never sent. */
  datatype JsFailure = Answered(status: int, data: ResponseData) | NoAnswer | NotSent

  const DefaultBadRequest: string := "请求参数错误"
  const DefaultFailure: string := "请求失败，请稍后再试"

  /** `errorData?.message || '请求参数错误'`: a plain text has no `message`. */
  function BadRequestMessage(data: ResponseData): (m: string)
    ensures data.ObjectData? && Truthy(data.message) ==> m == data.message.value
    ensures !(data.ObjectData? && Truthy(data.message)) ==> m == DefaultBadRequest
  {
    if data.ObjectData? && Truthy(data.message) then data.message.value else DefaultBadRequest
  }

  /** A 400 always shows some text. */
  lemma BadRequestMessageNotEmpty(data: ResponseData)
    ensures BadRequestMessage(data) != ""
  {
  }

  /**
   * `data || default`, shown verbatim when it is a string and as its JSON
   * text otherwise; an empty text is falsy and gives the default.
   */
  function OtherStatusMessage(data: ResponseData): (m: string)
    ensures data.NoData? ==> m == DefaultFailure
    ensures data.TextData? ==> m == (if data.text == "" then DefaultFailure else data.text)
    ensures data.ObjectData? ==> m == data.json
  {
    match data
    case NoData => DefaultFailure
    case TextData(t) => if t == "" then DefaultFailure else t
    case ObjectData(_, j) => j
  }

  /** The toast the error interceptor shows for a failure. */
  function FailureMessage(failure: JsFailure): (m: string)
    ensures failure.NoAnswer? ==> m == "服务器无响应，请检查网络连接"
    ensures failure.NotSent? ==> m == "请求配置错误"
    ensures failure.Answered? && failure.status == 401 ==> m == "登录已过期，请重新登录"
    ensures failure.Answered? && failure.status == 403 ==> m == "没有权限访问"
    ensures failure.Answered? && failure.status == 404 ==> m == "请求的资源不存在"
    ensures failure.Answered? && failure.status == 400 ==> m == BadRequestMessage(failure.data)
    ensures failure.Answered? && failure.status !in {400, 401, 403, 404} ==> m == OtherStatusMessage(failure.data)
  {
    match failure
    case NoAnswer => "服务器无响应，请检查网络连接"
    case NotSent => "请求配置错误"
    case Answered(status, data) =>
      if status == 401 then "登录已过期，请重新登录"
      else if status == 403 then "没有权限访问"
      else if status == 404 then "请求的资源不存在"
      else if status == 400 then BadRequestMessage(data)
      else OtherStatusMessage(data)
  }

  /** Whether the error interceptor forgets the token: every 401, with no exemption. */
  function ForgetsToken(failure: JsFailure): (forget: bool)
    ensures forget <==> failure.Answered? && failure.status == 401
  {
    failure.Answered? && failure.status == 401
  }

  /**
   * The error interceptor: one toast, the token forgotten and /login
   * opened on a 401 (whatever the url or the current page), and the same
   * error rejected again.
   */
  method OnResponseError(failure: JsFailure, storage: LocalStorage)
    returns (rejected: JsFailure, toast: string, navigation: Option<string>)
    modifies storage
    ensures rejected == failure && toast == FailureMessage(failure)
    ensures storage.user == old(storage.user) && storage.rememberedUser == old(storage.rememberedUser)
    ensures ForgetsToken(failure) ==> storage.token.None? && navigation == Some("/login")
    ensures !ForgetsToken(failure) ==> storage.token == old(storage.token) && navigation.None?
  {
    rejected := failure;
    navigation := None;
    if failure.Answered? {
      var status := failure.status;
      var errorData := failure.data;
      if status == 401 {
        toast := "登录已过期，请重新登录";
        storage.token := None;
        navigation := Some("/login");
      } else if status == 403 {
        toast := "没有权限访问";
      } else if status == 404 {
        toast := "请求的资源不存在";
      } else if status == 400 {
        toast := BadRequestMessage(errorData);
      } else {
        toast := OtherStatusMessage(errorData);
      }
    } else if failure.NoAnswer? {
      toast := "服务器无响应，请检查网络连接";
    } else {
      toast := "请求配置错误";
    }
  }

  /**
   * The two clients disagree on a 401 from the login url: this one forgets
   * the token, the TypeScript one keeps the whole session.
   */
  lemma VariantsDisagreeOnLogin401(data: ResponseData, pathname: string)
    ensures ForgetsToken(Answered(401, data))
    ensures !ForgetsSession(Failure(Some(401), Some(LoginUrl)), pathname)
  {
    LoginFailureKeepsSession(401, pathname);
  }
}
