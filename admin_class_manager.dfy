/**
 * frontend/src/components/admin/ClassManager.tsx: the administrator's
 * classes, searched over the class name and its teacher's name. The create
 * dialog posts its values with a copy of the name as `className`; the
 * assign dialog puts the chosen teacher id together with the class's
 * current name and description, so that the update keeps them.
 */
module AdminClassManager {
  import opened Wrappers
  import opened JavaStrings
  import opened Scripts
  import AdminControllers

  datatype TeacherRef = TeacherRef(id: int, name: Option<string>)

  datatype ClassInfo = ClassInfo(id: nat, name: string, description: Option<string>, studentCount: nat,
                                 teacher: Option<TeacherRef>)

  /**
   * `cls.teacher?.name?.toLowerCase().includes(...)`: the chain stops only
   * at a missing teacher or name, so an empty name is still searched.
   */
  predicate TeacherNameMatches(lower: string -> string, teacher: Option<TeacherRef>, search: string) {
    teacher.Some? && teacher.value.name.Some? && IncludesIgnoringCase(lower, teacher.value.name.value, search)
  }

  predicate ClassMatches(lower: string -> string, c: ClassInfo, search: string) {
    IncludesIgnoringCase(lower, c.name, search) || TeacherNameMatches(lower, c.teacher, search)
  }

  /** `filteredClasses` */
  function FilteredClasses(lower: string -> string, classes: seq<ClassInfo>, search: string): (r: seq<ClassInfo>)
    ensures forall i :: 0 <= i < |r| ==> r[i] in classes && ClassMatches(lower, r[i], search)
    ensures forall i :: 0 <= i < |classes| && ClassMatches(lower, classes[i], search) ==> classes[i] in r
  {
    Filter(classes, (c: ClassInfo) => ClassMatches(lower, c, search))
  }

  /** An empty search keeps every class, in order. */
  lemma EmptySearchKeepsClasses(lower: string -> string, classes: seq<ClassInfo>)
    requires lower("") == ""
    ensures FilteredClasses(lower, classes, "") == classes
  {
    forall i | 0 <= i < |classes| ensures ClassMatches(lower, classes[i], "") {
      EmptySearchMatches(lower, classes[i].name);
    }
    FilterKeepsAll(classes, (c: ClassInfo) => ClassMatches(lower, c, ""));
  }

  /** A class without a teacher is found by its name alone. */
  lemma TeacherlessClassMatchesByName(lower: string -> string, c: ClassInfo, search: string)
    requires c.teacher.None?
    ensures ClassMatches(lower, c, search) <==> IncludesIgnoringCase(lower, c.name, search)
  {
  }

  /** A JSON value of a request body; a key whose value is `undefined` is left out of the map. */
  datatype Json = JString(s: string) | JNumber(n: int) | JNull

  type Body = map<string, Json>

  /** What the controller reads for a key: `(String) body.get(key)` or `body.get(key).toString()`. */
  function BodyEntry(body: Body, key: string): (e: Entry<string>)
    ensures key !in body ==> e == Absent
    ensures key in body && body[key] == JNull ==> e == Null
    ensures key in body && body[key].JString? ==> e == Present(body[key].s)
    ensures key in body && body[key].JNumber? ==> e == Present(LongText(body[key].n))
  {
    if key !in body then Absent
    else
      match body[key]
      case JNull => Null
      case JString(s) => Present(s)
      case JNumber(n) => Present(LongText(n))
  }

  /** `{...values, className: values.name}`; a missing name is undefined and leaves className out. */
  function CreatePayload(values: Body): (p: Body)
    ensures "name" in values ==> p.Keys == values.Keys + {"className"} && p["className"] == values["name"]
    ensures "name" !in values ==> p == values
    ensures forall k :: k in values && k != "className" ==> k in p && p[k] == values[k]
  {
    if "name" in values then values["className" := values["name"]] else values
  }

  /** A validated create dialog: a name and a teacher chosen from the list. */
  predicate ValidCreateValues(values: Body) {
    "name" in values && values["name"].JString? && values["name"].s != ""
    && "teacherId" in values && values["teacherId"].JNumber?
    && LongMin <= values["teacherId"].n <= LongMax
  }

  /** The controller reads the dialog's name, description and teacher as the administrator entered them. */
  lemma CreatePayloadReachesController(values: Body)
    requires ValidCreateValues(values)
    ensures BodyEntry(CreatePayload(values), "name") == Present(values["name"].s)
    ensures BodyEntry(CreatePayload(values), "description") == BodyEntry(values, "description")
    ensures AdminControllers.CreateTeacherId(BodyEntry(CreatePayload(values), "teacherId"))
      == Ok(values["teacherId"].n)
  {
    AdminControllers.TeacherIdRoundTrip(values["teacherId"].n);
  }

  function DescriptionJson(d: Option<string>): Json {
    if d.Some? then JString(d.value) else JNull
  }

  /** `{...values, name: currentClass.name, description: currentClass.description}` */
  function AssignPayload(values: Body, current: ClassInfo): (p: Body)
    ensures p.Keys == values.Keys + {"name", "description"}
    ensures p["name"] == JString(current.name) && p["description"] == DescriptionJson(current.description)
    ensures forall k :: k in values && k !in {"name", "description"} ==> p[k] == values[k]
  {
    values["name" := JString(current.name)]["description" := DescriptionJson(current.description)]
  }

  /**
   * The update the assign dialog sends keeps the class's name and
   * description, and names the chosen teacher.
   */
  lemma AssignKeepsClass(values: Body, current: ClassInfo)
    requires "teacherId" in values && values["teacherId"].JNumber?
    requires LongMin <= values["teacherId"].n <= LongMax
    ensures BodyEntry(AssignPayload(values, current), "name") == Present(current.name)
    ensures Get(BodyEntry(AssignPayload(values, current), "description")) == current.description
    ensures AdminControllers.UpdateTeacherId(BodyEntry(AssignPayload(values, current), "teacherId"))
      == Ok(Some(values["teacherId"].n))
  {
    AdminControllers.TeacherIdRoundTrip(values["teacherId"].n);
  }

  /** `handleAssignTeacher`'s selection: `classInfo.teacher?.id || null`, so an id of 0 is no selection. */
  function AssignSeed(c: ClassInfo): (seed: Option<int>)
    ensures seed.Some? <==> c.teacher.Some? && c.teacher.value.id != 0
    ensures seed.Some? ==> seed.value == c.teacher.value.id
  {
    if c.teacher.Some? && c.teacher.value.id != 0 then Some(c.teacher.value.id) else None
  }
}
