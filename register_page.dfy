/**
 * frontend/src/components/auth/Register/Register.tsx: the three-step
 * registration wizard. Each step mounts its own fields; Next validates the
 * fields of the step it leaves, submitting validates the mounted ones, and
 * the form is posted as multipart parts to the registration endpoint, whose
 * field refusals send the wizard back to the step of that field.
 */
module RegisterPage {
  import opened Wrappers
  import opened JavaStrings
  import opened Scripts
  import AuthControllers

  /** The form store: a field's value, absent while the field is still undefined. */
  type Values = map<string, string>

  function Value(values: Values, field: string): Option<string> {
    if field in values then Some(values[field]) else None
  }

  /** A validation rule's notion of an empty string value: undefined or "". */
  predicate Blank(v: Option<string>) {
    v.None? || v.value == ""
  }

  /**
   * The messages of the rules of one field, in rule order. A length or
   * format rule is skipped on a blank value, leaving only the required one;
   * the confirmation's own validator passes a blank value. `isEmail` is the
   * `type: 'email'` check; the mobile and avatar fields have no rule that
   * can fail.
   */
  function FieldErrors(field: string, values: Values, isEmail: string -> bool): (errors: seq<string>)
    ensures field == "username" ==> (errors == [] <==>
      !Blank(Value(values, field)) && 4 <= |values[field]| <= 20)
    ensures field == "password" ==> (errors == [] <==>
      !Blank(Value(values, field)) && |values[field]| >= 6)
    ensures field == "confirmPassword" ==> (errors == [] <==>
      !Blank(Value(values, field)) && Value(values, "password") == Some(values[field]))
    ensures field == "name" ==> (errors == [] <==>
      !Blank(Value(values, field)) && |values[field]| <= 20)
    ensures field == "email" ==> (errors == [] <==>
      !Blank(Value(values, field)) && isEmail(values[field]))
    ensures field == "role" ==> (errors == [] <==> !Blank(Value(values, field)))
    ensures field !in {"username", "password", "confirmPassword", "name", "email", "role"} ==> errors == []
    ensures field == "username" && Blank(Value(values, field)) ==> errors == ["请输入用户名"]
    ensures field == "email" && Blank(Value(values, field)) ==> errors == ["请输入邮箱"]
  {
    var v := Value(values, field);
    if field == "username" then
      if Blank(v) then ["请输入用户名"]
      else
        (if |v.value| < 4 then ["用户名至少4个字符"] else []) +
        (if |v.value| > 20 then ["用户名不能超过20个字符"] else [])
    else if field == "password" then
      if Blank(v) then ["请输入密码"]
      else if |v.value| < 6 then ["密码至少6个字符"] else []
    else if field == "confirmPassword" then
      if Blank(v) then ["请确认密码"]
      else if Value(values, "password") != v then ["两次输入的密码不一致"] else []
    else if field == "name" then
      if Blank(v) then ["请输入姓名"]
      else if |v.value| > 20 then ["姓名不能超过20个字符"] else []
    else if field == "email" then
      if Blank(v) then ["请输入邮箱"]
      else if !isEmail(v.value) then ["请输入有效的邮箱地址"] else []
    else if field == "role" then
      if Blank(v) then ["请选择角色"] else []
    else []
  }

  /** The fields a field's rules read: the confirmation also reads the password. */
  function ReadsOf(field: string): set<string> {
    if field == "confirmPassword" then {"confirmPassword", "password"} else {field}
  }

  /** Changing a field no rule of `field` reads leaves that field's errors alone. */
  lemma FieldErrorsFrame(field: string, values: Values, other: string, x: string, isEmail: string -> bool)
    requires other !in ReadsOf(field)
    ensures FieldErrors(field, values[other := x], isEmail) == FieldErrors(field, values, isEmail)
  {
    assert Value(values[other := x], field) == Value(values, field);
    assert Value(values[other := x], "password") == Value(values, "password") || field != "confirmPassword";
  }

  predicate AllValid(fields: seq<string>, values: Values, isEmail: string -> bool) {
    forall i :: 0 <= i < |fields| ==> FieldErrors(fields[i], values, isEmail) == []
  }

  /** The fields each step mounts. */
  function StepFields(step: nat): seq<string>
    requires step <= 2
  {
    if step == 0 then ["username", "password", "confirmPassword"]
    else if step == 1 then ["name", "email", "mobile"]
    else ["role", "avatar"]
  }

  /** The fields `next` validates before leaving a step. */
  function NextFields(step: nat): seq<string>
    requires step < 2
  {
    if step == 0 then ["username", "password", "confirmPassword"] else ["name", "email"]
  }

  /** Which of the Previous, Next and Register buttons a step shows. */
  function ButtonsShown(step: nat): (shown: (bool, bool, bool))
    requires step <= 2
    ensures shown.0 <==> step > 0
    ensures shown.1 <==> step < 2
    ensures shown.2 <==> step == 2
    ensures shown.1 != shown.2
  {
    (step > 0, step < 2, step == 2)
  }

  /** A file handed to `beforeUpload`: its MIME type, its size in bytes, the extension of its name. */
  datatype PickedFile = PickedFile(mime: string, size: nat, extension: Option<string>)

  /** An entry of the upload list, and the `originFileObj` the submit reads from it. */
  datatype UploadEntry = UploadEntry(file: PickedFile, originFileObj: Option<PickedFile>)

  /** `beforeUpload`'s test: a JPEG or PNG under 2 MB (size / 1024 / 1024 < 2). */
  predicate AcceptAvatar(file: PickedFile) {
    (file.mime == "image/jpeg" || file.mime == "image/png") && file.size < 2097152
  }

  /**
   * The list entry `beforeUpload` stores: the picked file itself, which
   * carries no `originFileObj` of its own.
   */
  function PickedEntry(file: PickedFile): (e: UploadEntry)
    ensures e.file == file && e.originFileObj.None?
  {
    UploadEntry(file, None)
  }

  /** The entry the submit expects: one whose `originFileObj` is the picked file. */
  function IntendedEntry(file: PickedFile): (e: UploadEntry)
    ensures e.file == file && e.originFileObj == Some(file)
  {
    UploadEntry(file, Some(file))
  }

  /** One part of the multipart body. */
  datatype FormPart = TextPart(name: string, value: string) | FilePart(name: string, file: PickedFile)

  /** `FormData.append` of a possibly undefined value: undefined goes as the text "undefined". */
  function Appended(v: Option<string>): (s: string)
    ensures v.Some? ==> s == v.value
    ensures v.None? ==> s == "undefined"
  {
    if v.Some? then v.value else "undefined"
  }

  const TextFields: seq<string> := ["username", "password", "name", "email", "role"]

  /**
   * The body posted by `onFinish`: the five text fields of the whole store,
   * in order, then the avatar when the first list entry has an
   * `originFileObj`. The mobile field is never sent.
   */
  function RegisterParts(values: Values, fileList: seq<UploadEntry>): (parts: seq<FormPart>)
    ensures |parts| >= 5
    ensures forall i :: 0 <= i < 5 ==> parts[i] == TextPart(TextFields[i], Appended(Value(values, TextFields[i])))
    ensures |parts| == 6 <==> |fileList| > 0 && fileList[0].originFileObj.Some?
    ensures |parts| == 6 ==> parts[5] == FilePart("avatar", fileList[0].originFileObj.value)
    ensures |parts| <= 6
  {
    var texts := [
      TextPart("username", Appended(Value(values, "username"))),
      TextPart("password", Appended(Value(values, "password"))),
      TextPart("name", Appended(Value(values, "name"))),
      TextPart("email", Appended(Value(values, "email"))),
      TextPart("role", Appended(Value(values, "role")))];
    if |fileList| > 0 && fileList[0].originFileObj.Some? then
      texts + [FilePart("avatar", fileList[0].originFileObj.value)]
    else texts
  }

  /** `formData.has(name)` */
  predicate Has(parts: seq<FormPart>, name: string) {
    exists i :: 0 <= i < |parts| && parts[i].name == name
  }

  /**
   * The incomplete-form guard never fires: every text field is appended,
   * defined or not, so the body always has all five.
   */
  lemma IncompleteGuardNeverFires(values: Values, fileList: seq<UploadEntry>)
    ensures forall j :: 0 <= j < |TextFields| ==> Has(RegisterParts(values, fileList), TextFields[j])
  {
    var parts := RegisterParts(values, fileList);
    forall j | 0 <= j < |TextFields| ensures Has(parts, TextFields[j]) {
      assert parts[j].name == TextFields[j];
    }
  }

  function TextOf(parts: seq<FormPart>, name: string): (v: Option<string>)
    ensures v.Some? ==> exists i :: 0 <= i < |parts| && parts[i] == TextPart(name, v.value)
    decreases |parts|
  {
    if |parts| == 0 then None
    else if parts[0].TextPart? && parts[0].name == name then Some(parts[0].value)
    else
      var rest := TextOf(parts[1..], name);
      assert forall i :: 1 <= i < |parts| ==> parts[i] == parts[1..][i - 1];
      rest
  }

  function FileOf(parts: seq<FormPart>, name: string): (f: Option<PickedFile>)
    ensures f.Some? ==> exists i :: 0 <= i < |parts| && parts[i] == FilePart(name, f.value)
    ensures f.None? ==> forall i :: 0 <= i < |parts| ==> !(parts[i].FilePart? && parts[i].name == name)
    decreases |parts|
  {
    if |parts| == 0 then None
    else if parts[0].FilePart? && parts[0].name == name then Some(parts[0].file)
    else
      var rest := FileOf(parts[1..], name);
      assert forall i :: 1 <= i < |parts| ==> parts[i] == parts[1..][i - 1];
      rest
  }

  /** How the server reads a posted file: empty when it has no bytes. */
  function Received(f: PickedFile): AuthControllers.Upload {
    AuthControllers.Upload(f.size == 0, f.extension)
  }

  /** The registration form the server reads off a posted body. */
  function ServerForm(parts: seq<FormPart>): (f: AuthControllers.RegisterForm) {
    var avatar := FileOf(parts, "avatar");
    AuthControllers.RegisterForm(
      TextOf(parts, "username"), TextOf(parts, "password"), TextOf(parts, "name"),
      TextOf(parts, "email"), TextOf(parts, "role"),
      if avatar.Some? then Some(Received(avatar.value)) else None)
  }

  /**
   * The server sees every text field of the posted body, with the store's
   * value or "undefined", so it never answers that a field is missing.
   */
  lemma {:induction false} PostedFormIsComplete(values: Values, fileList: seq<UploadEntry>)
    ensures AuthControllers.Complete(ServerForm(RegisterParts(values, fileList)))
    ensures forall j :: 0 <= j < |TextFields| ==>
      TextOf(RegisterParts(values, fileList), TextFields[j]) == Some(Appended(Value(values, TextFields[j])))
  {
    var parts := RegisterParts(values, fileList);
    forall j | 0 <= j < |TextFields|
      ensures TextOf(parts, TextFields[j]) == Some(Appended(Value(values, TextFields[j])))
    {
      TextOfAt(parts, TextFields[j], j);
    }
    assert TextOf(parts, TextFields[0]).Some? && TextOf(parts, TextFields[1]).Some? && TextOf(parts, TextFields[2]).Some?;
    assert TextOf(parts, TextFields[3]).Some? && TextOf(parts, TextFields[4]).Some?;
  }

  lemma {:induction false} TextOfAt(parts: seq<FormPart>, name: string, k: nat)
    requires k < |parts| && parts[k].TextPart? && parts[k].name == name
    requires forall j :: 0 <= j < k ==> parts[j].name != name
    ensures TextOf(parts, name) == Some(parts[k].value)
    decreases k
  {
    if k > 0 {
      forall j | 0 <= j < k - 1 ensures parts[1..][j].name != name {
        assert parts[1..][j] == parts[j + 1];
      }
      TextOfAt(parts[1..], name, k - 1);
    }
  }

  /**
   * As written, an accepted avatar never reaches the server: the stored
   * entry has no `originFileObj`, so no file part is posted and the account
   * gets the default picture.
   */
  lemma PickedAvatarIsDropped(values: Values, file: PickedFile, uuid: string)
    ensures FileOf(RegisterParts(values, [PickedEntry(file)]), "avatar").None?
    ensures AuthControllers.RegisterAvatar(ServerForm(RegisterParts(values, [PickedEntry(file)])).avatar, uuid)
      == AuthControllers.DefaultAvatar
  {
  }

  /**
   * With the intended entry the picked file is the avatar part, and a
   * non-empty one is stored under the avatar directory.
   */
  lemma IntendedAvatarIsPosted(values: Values, file: PickedFile, uuid: string)
    ensures FileOf(RegisterParts(values, [IntendedEntry(file)]), "avatar") == Some(file)
    ensures ServerForm(RegisterParts(values, [IntendedEntry(file)])).avatar == Some(Received(file))
    ensures file.size > 0 ==>
      StartsWith(AuthControllers.RegisterAvatar(ServerForm(RegisterParts(values, [IntendedEntry(file)])).avatar, uuid),
                 AuthControllers.AvatarDir)
  {
    var parts := RegisterParts(values, [IntendedEntry(file)]);
    assert parts[..5] + [parts[5]] == parts;
    FileOfLast(parts[..5], FilePart("avatar", file));
  }

  lemma FileOfLast(texts: seq<FormPart>, last: FormPart)
    requires last.FilePart?
    requires forall i :: 0 <= i < |texts| ==> texts[i].TextPart?
    ensures FileOf(texts + [last], last.name) == Some(last.file)
    decreases |texts|
  {
    if |texts| > 0 {
      assert (texts + [last])[1..] == texts[1..] + [last];
      FileOfLast(texts[1..], last);
    }
  }

  /** The body of a failed registration: a text, or an object with `field` and `message`. */
  datatype ErrorBody = TextBody(text: string) | ObjectBody(field: Option<string>, message: Option<string>)

  /** How the post ended: answered with or without a body, or failed with or without one. */
  datatype RegisterReply = Registered(hasData: bool) | Refused(body: Option<ErrorBody>)

  /** The wizard's state: the step shown, the form store and the upload list. */
  class Wizard {
    var step: nat
    var values: Values
    var fileList: seq<UploadEntry>
    const isEmail: string -> bool

    /**
     * The wizard's invariant: a step past the first has its earlier
     * steps' `next` fields valid, since only the mounted step's fields can
     * be edited and only `next` moves forward.
     */
    predicate Valid()
      reads this
    {
      step <= 2 && |fileList| <= 1 &&
      (step >= 1 ==> AllValid(NextFields(0), values, isEmail)) &&
      (step == 2 ==> AllValid(NextFields(1), values, isEmail))
    }

    constructor (isEmail: string -> bool)
      ensures Valid()
      ensures step == 0 && values == map[] && fileList == [] && this.isEmail == isEmail
    {
      step := 0;
      values := map[];
      fileList := [];
      this.isEmail := isEmail;
    }

    /** Typing into a field of the step on screen. */
    method Edit(field: string, value: string)
      requires Valid() && field in StepFields(step) && field != "avatar"
      modifies this
      ensures Valid()
      ensures values == old(values)[field := value] && step == old(step) && fileList == old(fileList)
    {
      if step >= 1 {
        forall i | 0 <= i < |NextFields(0)| ensures FieldErrors(NextFields(0)[i], values[field := value], isEmail) == [] {
          FieldErrorsFrame(NextFields(0)[i], values, field, value, isEmail);
        }
      }
      if step == 2 {
        forall i | 0 <= i < |NextFields(1)| ensures FieldErrors(NextFields(1)[i], values[field := value], isEmail) == [] {
          FieldErrorsFrame(NextFields(1)[i], values, field, value, isEmail);
        }
      }
      values := values[field := value];
    }

    /** `next`, whose button is shown only before the last step. */
    method Next()
      requires Valid() && step < 2
      modifies this
      ensures Valid()
      ensures values == old(values) && fileList == old(fileList)
      ensures step == if AllValid(NextFields(old(step)), values, isEmail) then old(step) + 1 else old(step)
    {
      if AllValid(NextFields(step), values, isEmail) {
        step := step + 1;
      }
    }

    /** `prev`, whose button is shown only after the first step. */
    method Prev()
      requires Valid() && step > 0
      modifies this
      ensures Valid()
      ensures step == old(step) - 1 && values == old(values) && fileList == old(fileList)
    {
      step := step - 1;
    }

    /** `beforeUpload`: a refused file leaves the list; an accepted one replaces it and is not uploaded yet. */
    method BeforeUpload(file: PickedFile) returns (ignored: bool, toast: Option<string>)
      requires Valid()
      modifies this
      ensures Valid()
      ensures step == old(step) && values == old(values)
      ensures ignored <==> !AcceptAvatar(file)
      ensures ignored ==> fileList == old(fileList)
      ensures !ignored ==> fileList == [PickedEntry(file)] && toast.None?
      ensures !(file.mime == "image/jpeg" || file.mime == "image/png") ==> toast == Some("只能上传JPG/PNG格式的图片!")
      ensures (file.mime == "image/jpeg" || file.mime == "image/png") && file.size >= 2097152 ==>
        toast == Some("图片大小不能超过2MB!")
    {
      if !(file.mime == "image/jpeg" || file.mime == "image/png") {
        return true, Some("只能上传JPG/PNG格式的图片!");
      }
      if file.size >= 2097152 {
        return true, Some("图片大小不能超过2MB!");
      }
      fileList := [PickedEntry(file)];
      return false, None;
    }

    /** `onRemove` */
    method RemoveFile()
      requires Valid()
      modifies this
      ensures Valid()
      ensures fileList == [] && step == old(step) && values == old(values)
    {
      fileList := [];
    }

    /**
     * `onFinish`: on the last step the role is validated first, then the
     * mounted fields; when both pass, the body to post.
     */
    method OnFinish() returns (body: Option<seq<FormPart>>)
      requires Valid()
      ensures body.Some? <==>
        (step == 2 ==> FieldErrors("role", values, isEmail) == []) && AllValid(StepFields(step), values, isEmail)
      ensures body.Some? ==> body.value == RegisterParts(values, fileList)
      ensures body.Some? && step == 2 ==>
        forall j :: 0 <= j < |TextFields| ==> TextFields[j] in values && FieldErrors(TextFields[j], values, isEmail) == []
    {
      if step == 2 && FieldErrors("role", values, isEmail) != [] {
        return None;
      }
      if !AllValid(StepFields(step), values, isEmail) {
        return None;
      }
      if step == 2 {
        assert FieldErrors(NextFields(0)[0], values, isEmail) == [];
        assert FieldErrors(NextFields(0)[1], values, isEmail) == [];
        assert FieldErrors(NextFields(1)[0], values, isEmail) == [];
        assert FieldErrors(NextFields(1)[1], values, isEmail) == [];
        assert FieldErrors(StepFields(2)[0], values, isEmail) == [];
      }
      return Some(RegisterParts(values, fileList));
    }

    /**
     * The answer to the post: success opens /login; a refusal naming
     * `username` or `email` shows its message, clears that field and returns
     * to its step; any other refusal only shows a message.
     */
    method OnReply(reply: RegisterReply) returns (navigation: Option<string>, toast: Option<string>)
      requires Valid() && step == 2
      modifies this
      ensures Valid()
      ensures fileList == old(fileList)
      ensures reply.Registered? ==>
        values == old(values) && step == old(step) &&
        navigation == (if reply.hasData then Some("/login") else None) &&
        toast == (if reply.hasData then Some("注册成功，请登录") else None)
      ensures reply.Refused? ==> navigation.None?
      ensures FieldRefusal(reply) ==> toast == reply.body.value.message
      ensures FieldRefusal(reply) && reply.body.value.field == Some("username") ==>
        values == old(values)["username" := ""] && step == 0
      ensures FieldRefusal(reply) && reply.body.value.field == Some("email") ==>
        values == old(values)["email" := ""] && step == 1
      ensures FieldRefusal(reply) && reply.body.value.field !in {Some("username"), Some("email")} ==>
        values == old(values) && step == old(step)
      ensures reply.Refused? && !FieldRefusal(reply) ==>
        values == old(values) && step == old(step) && toast == Some(RefusalToast(reply.body))
    {
      navigation := None;
      toast := None;
      if reply.Registered? {
        if reply.hasData {
          toast := Some("注册成功，请登录");
          navigation := Some("/login");
        }
        return;
      }
      var body := reply.body;
      if FieldRefusal(reply) {
        toast := body.value.message;
        if body.value.field == Some("username") {
          values := values["username" := ""];
          step := 0;
        }
        if body.value.field == Some("email") {
          forall i | 0 <= i < |NextFields(0)| ensures FieldErrors(NextFields(0)[i], values["email" := ""], isEmail) == [] {
            FieldErrorsFrame(NextFields(0)[i], values, "email", "", isEmail);
          }
          values := values["email" := ""];
          step := 1;
        }
      } else {
        toast := Some(RefusalToast(body));
      }
    }
  }

  /** A refusal whose body names both a field and a message. */
  predicate FieldRefusal(reply: RegisterReply) {
    reply.Refused? && reply.body.Some? && reply.body.value.ObjectBody? &&
    Truthy(reply.body.value.field) && Truthy(reply.body.value.message)
  }

  /** The message of a refusal without both a field and a message. */
  function RefusalToast(body: Option<ErrorBody>): (t: string)
    ensures body.Some? && body.value.ObjectBody? && Truthy(body.value.message) ==> t == body.value.message.value
    ensures body.Some? && body.value.TextBody? && body.value.text != "" ==> t == body.value.text
    ensures (body.None? || (body.value.TextBody? && body.value.text == "") ||
             (body.value.ObjectBody? && !Truthy(body.value.message))) ==>
            t == "注册失败，请重试"
  {
    match body
    case None => "注册失败，请重试"
    case Some(TextBody(t)) => if t == "" then "注册失败，请重试" else t
    case Some(ObjectBody(_, m)) => if Truthy(m) then m.value else "注册失败，请重试"
  }

}
