/**
 * TeacherService.java as a class over the repositories it reads and saves:
 * each method looks the calling teacher up by username, runs the checks
 * of module TeacherRules and then saves the new row or deletes the old
 * one. A failed call changes nothing.
 */
module TeacherServices {
  import opened Wrappers
  import opened Users
  import opened Activities
  import opened Classes
  import opened TeacherRules

  class TeacherService {
    /** userRepository, by id */
    var users: map<UserId, User>
    /** activityRepository, by id */
    var activities: map<ActivityId, Activity>
    /** classRepository, by id */
    var classes: map<ClassId, ClassEntity>
    /** evaluationRepository, by id */
    var evaluations: map<EvaluationId, Evaluation>
    /** learningGoalRepository, by id */
    var goals: map<GoalId, Goal>
    /** the ids the database generates next */
    var nextActivityId: ActivityId
    var nextClassId: ClassId
    var nextEvaluationId: EvaluationId
    var nextGoalId: GoalId

    ghost predicate Valid()
      reads this
    {
      UniqueAccounts(users) &&
      (forall a :: a in activities ==> activities[a].id == a && a < nextActivityId) &&
      (forall c :: c in classes ==> classes[c].id == c && c < nextClassId) &&
      (forall e :: e in evaluations ==> evaluations[e].id == e && e < nextEvaluationId) &&
      (forall g :: g in goals ==> goals[g].id == g && g < nextGoalId)
    }

    constructor (users: map<UserId, User>)
      requires UniqueAccounts(users)
      ensures Valid()
      ensures this.users == users && activities == map[] && classes == map[] && evaluations == map[] && goals == map[]
    {
      this.users := users;
      activities := map[];
      classes := map[];
      evaluations := map[];
      goals := map[];
      nextActivityId := 1;
      nextClassId := 1;
      nextEvaluationId := 1;
      nextGoalId := 1;
    }

    // ----- activities -----

    /**
     * `getMyActivities`: the views of the activities the teacher created,
     * in the order of `order`, the repository's row order.
     */
    method GetMyActivities(username: string, order: seq<ActivityId>) returns (r: Result<seq<ActivityView>, TeacherError>)
      requires Valid()
      requires forall k :: 0 <= k < |order| ==> order[k] in activities
      ensures TeacherOf(users, username).Err? ==> r == Err(TeacherNotFound)
      ensures TeacherOf(users, username).Ok? ==>
        var mine := CreatedBy(activities, order, TeacherOf(users, username).value);
        r.Ok? && |r.value| == |mine| &&
        forall k :: 0 <= k < |mine| ==> r.value[k] == ToView(activities[mine[k]], users)
    {
      var t := TeacherOf(users, username);
      if t.Err? {
        return Err(TeacherNotFound);
      }
      var mine := CreatedBy(activities, order, t.value);
      var views: seq<ActivityView> := [];
      var i := 0;
      while i < |mine|
        invariant 0 <= i <= |mine|
        invariant |views| == i
        invariant forall k :: 0 <= k < i ==> views[k] == ToView(activities[mine[k]], users)
      {
        views := views + [ToView(activities[mine[i]], users)];
        i := i + 1;
      }
      return Ok(views);
    }

    /** `createActivity`: a new activity owned by the caller, or nothing saved. */
    method CreateActivity(data: ActivityData, username: string, parse: string -> Option<Instant>)
      returns (r: Result<Activity, TeacherError>)
      requires Valid()
      modifies this
      ensures Valid()
      ensures users == old(users) && classes == old(classes) && evaluations == old(evaluations) && goals == old(goals)
      ensures TeacherOf(old(users), username).Err? ==> r == Err(TeacherNotFound)
      ensures TeacherOf(old(users), username).Ok? ==>
        r == NewActivity(data, old(nextActivityId), TeacherOf(old(users), username).value, parse)
      ensures r.Ok? ==> activities == old(activities)[r.value.id := r.value]
      ensures r.Err? ==> activities == old(activities)
    {
      var t := TeacherOf(users, username);
      if t.Err? {
        return Err(TeacherNotFound);
      }
      r := NewActivity(data, nextActivityId, t.value, parse);
      if r.Ok? {
        activities := activities[r.value.id := r.value];
        nextActivityId := nextActivityId + 1;
      }
    }

    /** The checks `updateActivity` and `deleteActivity` run before touching the row. */
    function ActivityAccess(username: string, id: ActivityId, denied: TeacherError): (e: Option<TeacherError>)
      reads this
      requires Valid()
      ensures e.None? <==>
        (UsernameTaken(users, username) && id in activities &&
         ActivityOwnerCheck(activities[id], TeacherOf(users, username).value, denied).None?)
      ensures !UsernameTaken(users, username) ==> e == Some(TeacherNotFound)
      ensures UsernameTaken(users, username) && id !in activities ==> e == Some(ActivityNotFound)
    {
      match TeacherOf(users, username)
      case Err(x) => Some(x)
      case Ok(t) =>
        if id !in activities then Some(ActivityNotFound) else ActivityOwnerCheck(activities[id], t, denied)
    }

    /** `updateActivity`: the creator (or anyone, for an activity without one) edits the given fields. */
    method UpdateActivity(id: ActivityId, data: ActivityData, username: string, parse: string -> Option<Instant>)
      returns (r: Result<Activity, TeacherError>)
      requires Valid()
      modifies this
      ensures Valid()
      ensures users == old(users) && classes == old(classes) && evaluations == old(evaluations) && goals == old(goals)
      ensures old(ActivityAccess(username, id, NoActivityEditRight)).Some? ==>
        r == Err(old(ActivityAccess(username, id, NoActivityEditRight)).value)
      ensures old(ActivityAccess(username, id, NoActivityEditRight)).None? ==>
        r == ActivityPatched(old(activities)[id], data, parse)
      ensures r.Ok? ==> activities == old(activities)[id := r.value]
      ensures r.Err? ==> activities == old(activities)
    {
      var e := ActivityAccess(username, id, NoActivityEditRight);
      if e.Some? {
        return Err(e.value);
      }
      r := ActivityPatched(activities[id], data, parse);
      if r.Ok? {
        activities := activities[id := r.value];
      }
    }

    /**
     * `deleteActivity`: the creator (or anyone, for an activity without one)
     * deletes it. `referenced` holds the activities that rows of
     * activity_participations name; that table is StudentService's, and
     * its non-null `activity_id` makes the database refuse the delete.
     */
    method DeleteActivity(id: ActivityId, username: string, referenced: set<ActivityId>)
      returns (r: Result<Activity, TeacherError>)
      requires Valid()
      modifies this
      ensures Valid()
      ensures users == old(users) && classes == old(classes) && evaluations == old(evaluations) && goals == old(goals)
      ensures old(ActivityAccess(username, id, NoActivityDeleteRight)).Some? ==>
        r == Err(old(ActivityAccess(username, id, NoActivityDeleteRight)).value) && activities == old(activities)
      ensures old(ActivityAccess(username, id, NoActivityDeleteRight)).None? && id in referenced ==>
        r == Err(StillReferenced) && activities == old(activities)
      ensures old(ActivityAccess(username, id, NoActivityDeleteRight)).None? && id !in referenced ==>
        r == Ok(old(activities)[id]) && activities == old(activities) - {id}
    {
      var e := ActivityAccess(username, id, NoActivityDeleteRight);
      if e.Some? {
        return Err(e.value);
      }
      if id in referenced {
        return Err(StillReferenced);
      }
      r := Ok(activities[id]);
      activities := activities - {id};
    }

    // ----- classes -----

    /** The caller's id followed by the ownership check, as every class operation begins. */
    function ClassAccess(username: string, classId: ClassId, denied: TeacherError): (e: Option<TeacherError>)
      reads this
      requires Valid()
      ensures e.None? <==>
        (UsernameTaken(users, username) && classId in classes &&
         classes[classId].teacher == Some(TeacherOf(users, username).value))
      ensures !UsernameTaken(users, username) ==> e == Some(TeacherNotFound)
      ensures UsernameTaken(users, username) ==> e == ClassOwnerCheck(classes, classId, TeacherOf(users, username).value, denied)
    {
      match TeacherOf(users, username)
      case Err(x) => Some(x)
      case Ok(t) => ClassOwnerCheck(classes, classId, t, denied)
    }

    /** `getClassDetail`: only the class's teacher sees it. */
    method GetClassDetail(classId: ClassId, username: string) returns (r: Result<ClassDetail, TeacherError>)
      requires Valid()
      ensures ClassAccess(username, classId, NoClassViewRight).Some? ==>
        r == Err(ClassAccess(username, classId, NoClassViewRight).value)
      ensures ClassAccess(username, classId, NoClassViewRight).None? ==>
        r == Ok(ClassDetailOf(classes[classId])) && r.value.studentCount == |classes[classId].students|
    {
      var e := ClassAccess(username, classId, NoClassViewRight);
      if e.Some? {
        return Err(e.value);
      }
      return Ok(ClassDetailOf(classes[classId]));
    }

    /** `createClass`: a new, empty class taught by the caller. */
    method CreateClass(name: Entry<string>, description: Entry<string>, username: string)
      returns (r: Result<ClassEntity, TeacherError>)
      requires Valid()
      modifies this
      ensures Valid()
      ensures users == old(users) && activities == old(activities) && evaluations == old(evaluations) && goals == old(goals)
      ensures TeacherOf(old(users), username).Err? ==> r == Err(TeacherNotFound) && classes == old(classes)
      ensures TeacherOf(old(users), username).Ok? ==>
        r == Ok(ClassEntity(old(nextClassId), Get(name), Get(description), Some(TeacherOf(old(users), username).value), [])) &&
        classes == old(classes)[r.value.id := r.value]
    {
      var t := TeacherOf(users, username);
      if t.Err? {
        return Err(TeacherNotFound);
      }
      var c := ClassEntity(nextClassId, Get(name), Get(description), Some(t.value), []);
      classes := classes[c.id := c];
      nextClassId := nextClassId + 1;
      return Ok(c);
    }

    /** `updateClass`: name and description are both overwritten, a missing key clearing the field. */
    method UpdateClass(classId: ClassId, name: Entry<string>, description: Entry<string>, username: string)
      returns (r: Result<ClassEntity, TeacherError>)
      requires Valid()
      modifies this
      ensures Valid()
      ensures users == old(users) && activities == old(activities) && evaluations == old(evaluations) && goals == old(goals)
      ensures old(ClassAccess(username, classId, NoClassUpdateRight)).Some? ==>
        r == Err(old(ClassAccess(username, classId, NoClassUpdateRight)).value) && classes == old(classes)
      ensures old(ClassAccess(username, classId, NoClassUpdateRight)).None? ==>
        r == Ok(old(classes)[classId].(name := Get(name), description := Get(description))) &&
        classes == old(classes)[classId := r.value]
    {
      var e := ClassAccess(username, classId, NoClassUpdateRight);
      if e.Some? {
        return Err(e.value);
      }
      var c := classes[classId].(name := Get(name), description := Get(description));
      classes := classes[classId := c];
      return Ok(c);
    }

    /**
     * `deleteClass`: only the class's teacher deletes it. `referenced` holds
     * the classes that rows of class_applications name; that table is
     * ClassService's, and its non-null `class_id` makes the database refuse
     * the delete.
     */
    method DeleteClass(classId: ClassId, username: string, referenced: set<ClassId>) returns (r: Option<TeacherError>)
      requires Valid()
      modifies this
      ensures Valid()
      ensures users == old(users) && activities == old(activities) && evaluations == old(evaluations) && goals == old(goals)
      ensures old(ClassAccess(username, classId, NoClassDeleteRight)).Some? ==>
        r == old(ClassAccess(username, classId, NoClassDeleteRight))
      ensures old(ClassAccess(username, classId, NoClassDeleteRight)).None? ==>
        r == (if classId in referenced then Some(StillReferenced) else None)
      ensures r.Some? ==> classes == old(classes)
      ensures r.None? ==> classes == old(classes) - {classId}
    {
      r := ClassAccess(username, classId, NoClassDeleteRight);
      if r.None? && classId in referenced {
        r := Some(StillReferenced);
      }
      if r.None? {
        classes := classes - {classId};
      }
    }

    /** `addStudentToClass`: the class's teacher appends a STUDENT, even one already listed. */
    method AddStudentToClass(classId: ClassId, studentId: UserId, username: string) returns (r: Option<TeacherError>)
      requires Valid()
      modifies this
      ensures Valid()
      ensures users == old(users) && activities == old(activities) && evaluations == old(evaluations) && goals == old(goals)
      ensures TeacherOf(old(users), username).Err? ==> r == Some(TeacherNotFound)
      ensures TeacherOf(old(users), username).Ok? ==>
        r == AddStudentCheck(old(users), old(classes), classId, studentId, TeacherOf(old(users), username).value)
      ensures r.Some? ==> classes == old(classes)
      ensures r.None? ==>
        classId in old(classes) &&
        classes == old(classes)[classId := old(classes)[classId].(students := old(classes)[classId].students + [studentId])]
    {
      var t := TeacherOf(users, username);
      if t.Err? {
        return Some(TeacherNotFound);
      }
      r := AddStudentCheck(users, classes, classId, studentId, t.value);
      if r.None? {
        var c := classes[classId];
        classes := classes[classId := c.(students := c.students + [studentId])];
      }
    }

    /** `removeStudentFromClass`: the class's teacher drops the first occurrence of any existing user. */
    method RemoveStudentFromClass(classId: ClassId, studentId: UserId, username: string) returns (r: Option<TeacherError>)
      requires Valid()
      modifies this
      ensures Valid()
      ensures users == old(users) && activities == old(activities) && evaluations == old(evaluations) && goals == old(goals)
      ensures TeacherOf(old(users), username).Err? ==> r == Some(TeacherNotFound)
      ensures TeacherOf(old(users), username).Ok? ==>
        r == RemoveStudentCheck(old(users), old(classes), classId, studentId, TeacherOf(old(users), username).value)
      ensures r.Some? ==> classes == old(classes)
      ensures r.None? ==>
        classId in old(classes) &&
        classes == old(classes)[classId := old(classes)[classId].(students := RemoveFirst(old(classes)[classId].students, studentId))]
    {
      var t := TeacherOf(users, username);
      if t.Err? {
        return Some(TeacherNotFound);
      }
      r := RemoveStudentCheck(users, classes, classId, studentId, t.value);
      if r.None? {
        var c := classes[classId];
        var updated := c.(students := RemoveFirst(c.students, studentId));
        assert updated.id == classId;
        classes := classes[classId := updated];
      }
    }

    // ----- evaluations -----

    /** `createEvaluation`: the caller's evaluation of an existing user. */
    method CreateEvaluation(studentId: Entry<string>, content: Entry<string>, grade: Entry<string>, username: string)
      returns (r: Result<Evaluation, TeacherError>)
      requires Valid()
      modifies this
      ensures Valid()
      ensures users == old(users) && activities == old(activities) && classes == old(classes) && goals == old(goals)
      ensures TeacherOf(old(users), username).Err? ==> r == Err(TeacherNotFound)
      ensures TeacherOf(old(users), username).Ok? && StudentIdOf(studentId).Err? ==> r == Err(StudentIdOf(studentId).error)
      ensures (TeacherOf(old(users), username).Ok? && StudentIdOf(studentId).Ok? &&
               StudentIdOf(studentId).value !in old(users)) ==> r == Err(StudentNotFound)
      ensures r.Ok? <==>
        (TeacherOf(old(users), username).Ok? && StudentIdOf(studentId).Ok? && StudentIdOf(studentId).value in old(users))
      ensures r.Ok? ==>
        r.value == Evaluation(old(nextEvaluationId), StudentIdOf(studentId).value, TeacherOf(old(users), username).value,
                              Get(content), Get(grade)) &&
        evaluations == old(evaluations)[r.value.id := r.value]
      ensures r.Err? ==> evaluations == old(evaluations)
    {
      var t := TeacherOf(users, username);
      if t.Err? {
        return Err(TeacherNotFound);
      }
      var s := StudentIdOf(studentId);
      if s.Err? {
        return Err(s.error);
      }
      if s.value !in users {
        return Err(StudentNotFound);
      }
      var ev := Evaluation(nextEvaluationId, s.value, t.value, Get(content), Get(grade));
      evaluations := evaluations[ev.id := ev];
      nextEvaluationId := nextEvaluationId + 1;
      return Ok(ev);
    }

    /** The caller's id followed by the evaluation ownership check. */
    function EvaluationAccess(username: string, id: EvaluationId, denied: TeacherError): (e: Option<TeacherError>)
      reads this
      requires Valid()
      ensures e.None? <==>
        (UsernameTaken(users, username) && id in evaluations && evaluations[id].teacher == TeacherOf(users, username).value)
      ensures !UsernameTaken(users, username) ==> e == Some(TeacherNotFound)
    {
      match TeacherOf(users, username)
      case Err(x) => Some(x)
      case Ok(t) => EvaluationOwnerCheck(evaluations, id, t, denied)
    }

    /** `updateEvaluation`: the author overwrites content and grade, a missing key clearing the field. */
    method UpdateEvaluation(id: EvaluationId, content: Entry<string>, grade: Entry<string>, username: string)
      returns (r: Result<Evaluation, TeacherError>)
      requires Valid()
      modifies this
      ensures Valid()
      ensures users == old(users) && activities == old(activities) && classes == old(classes) && goals == old(goals)
      ensures old(EvaluationAccess(username, id, NoEvaluationUpdateRight)).Some? ==>
        r == Err(old(EvaluationAccess(username, id, NoEvaluationUpdateRight)).value) && evaluations == old(evaluations)
      ensures old(EvaluationAccess(username, id, NoEvaluationUpdateRight)).None? ==>
        r == Ok(old(evaluations)[id].(content := Get(content), grade := Get(grade))) &&
        evaluations == old(evaluations)[id := r.value]
    {
      var e := EvaluationAccess(username, id, NoEvaluationUpdateRight);
      if e.Some? {
        return Err(e.value);
      }
      var ev := evaluations[id].(content := Get(content), grade := Get(grade));
      evaluations := evaluations[id := ev];
      return Ok(ev);
    }

    /** `deleteEvaluation`: only the author deletes it. */
    method DeleteEvaluation(id: EvaluationId, username: string) returns (r: Option<TeacherError>)
      requires Valid()
      modifies this
      ensures Valid()
      ensures users == old(users) && activities == old(activities) && classes == old(classes) && goals == old(goals)
      ensures r == old(EvaluationAccess(username, id, NoEvaluationDeleteRight))
      ensures r.Some? ==> evaluations == old(evaluations)
      ensures r.None? ==> evaluations == old(evaluations) - {id}
    {
      r := EvaluationAccess(username, id, NoEvaluationDeleteRight);
      if r.None? {
        evaluations := evaluations - {id};
      }
    }

    // ----- learning goals -----

    /** `createGoal`: a new goal for an existing user, set by the caller. */
    method CreateGoal(data: GoalData, username: string, parseIso: string -> Option<Instant>)
      returns (r: Result<Goal, TeacherError>)
      requires Valid()
      modifies this
      ensures Valid()
      ensures users == old(users) && activities == old(activities) && classes == old(classes) && evaluations == old(evaluations)
      ensures TeacherOf(old(users), username).Err? ==> r == Err(TeacherNotFound)
      ensures TeacherOf(old(users), username).Ok? && StudentIdOf(data.studentId).Err? ==>
        r == Err(StudentIdOf(data.studentId).error)
      ensures (TeacherOf(old(users), username).Ok? && StudentIdOf(data.studentId).Ok? &&
               StudentIdOf(data.studentId).value !in old(users)) ==> r == Err(StudentNotFound)
      ensures (TeacherOf(old(users), username).Ok? && StudentIdOf(data.studentId).Ok? &&
               StudentIdOf(data.studentId).value in old(users)) ==>
        r == NewGoal(data, old(nextGoalId), TeacherOf(old(users), username).value, StudentIdOf(data.studentId).value, parseIso)
      ensures r.Ok? ==> goals == old(goals)[r.value.id := r.value]
      ensures r.Err? ==> goals == old(goals)
    {
      var t := TeacherOf(users, username);
      if t.Err? {
        return Err(TeacherNotFound);
      }
      var s := StudentIdOf(data.studentId);
      if s.Err? {
        return Err(s.error);
      }
      if s.value !in users {
        return Err(StudentNotFound);
      }
      r := NewGoal(data, nextGoalId, t.value, s.value, parseIso);
      if r.Ok? {
        goals := goals[r.value.id := r.value];
        nextGoalId := nextGoalId + 1;
      }
    }

    /** The caller's id followed by the goal ownership check. */
    function GoalAccess(username: string, id: GoalId, denied: TeacherError): (e: Option<TeacherError>)
      reads this
      requires Valid()
      ensures e.None? <==>
        (UsernameTaken(users, username) && id in goals && goals[id].teacher == TeacherOf(users, username).value)
      ensures !UsernameTaken(users, username) ==> e == Some(TeacherNotFound)
    {
      match TeacherOf(users, username)
      case Err(x) => Some(x)
      case Ok(t) => GoalOwnerCheck(goals, id, t, denied)
    }

    /** `getGoalDetail`: only the goal's teacher sees it. */
    method GetGoalDetail(id: GoalId, username: string) returns (r: Result<Goal, TeacherError>)
      requires Valid()
      ensures GoalAccess(username, id, NoGoalViewRight).Some? ==> r == Err(GoalAccess(username, id, NoGoalViewRight).value)
      ensures GoalAccess(username, id, NoGoalViewRight).None? ==> r == Ok(goals[id])
    {
      var e := GoalAccess(username, id, NoGoalViewRight);
      if e.Some? {
        return Err(e.value);
      }
      return Ok(goals[id]);
    }

    /** `updateGoal`: the goal's teacher edits the given fields. */
    method UpdateGoal(id: GoalId, data: GoalData, username: string, parseIso: string -> Option<Instant>)
      returns (r: Result<Goal, TeacherError>)
      requires Valid()
      modifies this
      ensures Valid()
      ensures users == old(users) && activities == old(activities) && classes == old(classes) && evaluations == old(evaluations)
      ensures old(GoalAccess(username, id, NoGoalUpdateRight)).Some? ==>
        r == Err(old(GoalAccess(username, id, NoGoalUpdateRight)).value)
      ensures old(GoalAccess(username, id, NoGoalUpdateRight)).None? ==>
        r == GoalPatched(old(goals)[id], data, parseIso)
      ensures r.Ok? ==> goals == old(goals)[id := r.value]
      ensures r.Err? ==> goals == old(goals)
    {
      var e := GoalAccess(username, id, NoGoalUpdateRight);
      if e.Some? {
        return Err(e.value);
      }
      r := GoalPatched(goals[id], data, parseIso);
      if r.Ok? {
        goals := goals[id := r.value];
      }
    }

    /** `deleteGoal`: only the goal's teacher deletes it. */
    method DeleteGoal(id: GoalId, username: string) returns (r: Option<TeacherError>)
      requires Valid()
      modifies this
      ensures Valid()
      ensures users == old(users) && activities == old(activities) && classes == old(classes) && evaluations == old(evaluations)
      ensures r == old(GoalAccess(username, id, NoGoalDeleteRight))
      ensures r.Some? ==> goals == old(goals)
      ensures r.None? ==> goals == old(goals) - {id}
    {
      r := GoalAccess(username, id, NoGoalDeleteRight);
      if r.None? {
        goals := goals - {id};
      }
    }

    /**
     * `getStudentGoals`: walks the student's goals in `order` (newest first,
     * as the repository returns them) and keeps those the caller set.
     */
    method GetStudentGoals(studentId: UserId, username: string, order: seq<GoalId>)
      returns (r: Result<seq<GoalView>, TeacherError>)
      requires Valid()
      requires forall k :: 0 <= k < |order| ==> order[k] in goals && goals[order[k]].student == studentId
      ensures TeacherOf(users, username).Err? ==> r == Err(TeacherNotFound)
      ensures TeacherOf(users, username).Ok? && studentId !in users ==> r == Err(StudentNotFound)
      ensures TeacherOf(users, username).Ok? && studentId in users ==>
        var mine := SetBy(goals, order, TeacherOf(users, username).value);
        r.Ok? && |r.value| == |mine| &&
        forall k :: 0 <= k < |mine| ==> r.value[k] == GoalViewOf(goals[mine[k]])
    {
      var t := TeacherOf(users, username);
      if t.Err? {
        return Err(TeacherNotFound);
      }
      if studentId !in users {
        return Err(StudentNotFound);
      }
      var views: seq<GoalView> := [];
      ghost var mine: seq<GoalId> := [];
      var i := 0;
      while i < |order|
        invariant 0 <= i <= |order|
        invariant mine == SetBy(goals, order[..i], t.value)
        invariant |views| == |mine|
        invariant forall k :: 0 <= k < |mine| ==> views[k] == GoalViewOf(goals[mine[k]])
      {
        assert order[..i + 1][..i] == order[..i];
        if goals[order[i]].teacher == t.value {
          views := views + [GoalViewOf(goals[order[i]])];
          mine := mine + [order[i]];
        }
        i := i + 1;
      }
      assert order[..|order|] == order;
      return Ok(views);
    }
  }
}
