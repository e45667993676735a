# learning_analysis — a Dafny model

learning_analysis is a learning-analysis platform for a university. Students
sign up for activities (competitions, volunteering, lectures), join classes
and follow learning goals. Teachers manage their classes, activities, goals
and evaluations. Administrators manage accounts and classes and read an audit
log. It has two parts:

- a Spring backend:
  - REST controllers (authentication, classes, administration, user profile);
  - a JWT filter and the URL security rules;
  - services over JPA repositories;
  - an aspect that writes operations to a system log;
- a React frontend:
  - an axios client;
  - a router with a role guard and a shared layout;
  - login and registration pages;
  - the student, teacher and administrator pages.

This project models that core in Dafny:

- **Entities as values.** Users, activities, participations, classes,
  applications and log rows are datatypes.
- **Repositories as maps.** Each repository is a map from id to row, which
  services and controllers own.
- **Services as classes.** Each service is a class whose methods change those
  maps, with `modifies` clauses. The new state of each method is stated in
  full through `old(...)`.
- **Proved properties.**
  - Which rows each operation touches and which it leaves alone.
  - Which errors each operation reports, and in which order it checks them.
  - The role rules of the security configuration.
  - The round trip between a token and the username parsed from it.
- **Frontend pages.** Their state is classes too: page fields, with methods
  for the handlers. Their decisions are functions:
  - filters;
  - labels;
  - routing;
  - the requests a form builds and what the backend reads back from them.

Things the code cannot see are parameters:

- the clock;
- the password encoder;
- the UUID generator;
- `toUpperCase` and `toLowerCase`;
- URL encoding;
- the browser's storage;
- the HTTP reply.

A reply is modelled as one atomic step: the request is sent and the reply to
it handled in a single call.

The modules follow the source:

| module | models |
|---|---|
| Wrappers, JavaStrings, Scripts, UrlQueries | Option/Result, Java string and number parsing, JavaScript helpers, query strings |
| Users, Activities, Participations, Classes | the JPA entities and enums |
| StudentServices, StudentServiceRuns, ClassServices, UserServices, TeacherRules, TeacherServices, AdminServices, Logs, Auditing | the services and the logging aspect |
| Tokens, SecurityRules, AuthControllers, ClassControllers, AdminControllers, UserControllers | the JWT filter, the security configuration and the controllers |
| Browser, AxiosTs, AxiosJs, AppRoutes, Layouts | local storage, the two axios clients, the router and the layout |
| LoginPage, RegisterPage, StudentActivityList, ActivityDetailPage, TeacherClassManager, LearningTargetForm, ActivityManagement, LearningGoalManagement, StudentEvaluation, AdminStudentManager, AdminTeacherManager, AdminClassManager, SystemLogs | the pages |

Behaviour of the code as written that the model keeps, and proves where it
can:

- The Register page's "incomplete form" guard can never fire, and the mobile
  number entered on the page is never sent.
- The router has no `/admin` route, although an administrator's login lands
  on `/admin/dashboard`.
- The layout's profile entry opens `/student/profile`, `/teacher/profile` or
  `/profile`, and no route answers any of them: a section answers only its
  own path, its index and its declared children.
- ENDED is not an activity status of the backend, so the student list never
  shows its complete button.
- The activity list and the activity detail page offer different buttons for
  the same participation.
- When an action on the detail page succeeds but the refetch of the activity
  fails, the page shows the action's success toast and then its failure
  toast.
- The class manager's "remove from class" makes no request.
- The activity management badges expect lower-case statuses, so the
  backend's upper-case statuses get no badge.
- The system log page shows three of the backend's operation types raw, and
  its LOGIN colour test can never be reached separately.
- The teacher manager shows a departed teacher as 离校 in the table and as
  离职 in the detail view.
- Neither axios client clears the session on a 403 reply (axios.ts:89-90,
  axios.js:50).
- `existsByEmailAndIdNot` is modelled by what its name evidently means.
- `ActivityParticipation.onCreate` reads the clock more than once.
- A username containing '.' does not survive the token round trip.
- ClassController trusts the role written in the token, while
  AdminController checks the role stored for the account.
- TeacherService's `addStudentToClass` and UserService's automatic class
  assignment append to a roster without checking membership, so a student
  can be listed twice and then stay a member after one removal. A roster
  stays free of duplicates only under ClassService's own operations, which
  is all the roster lemmas of ClassServices claim.

## Model

| member | source | states |
|---|---|---|
| Wrappers.Get | backend/src/main/java/com/example/learninganalysis/controller/AdminController.java:96 | a missing key and a null value of a request map both read as null; otherwise the value |
| Wrappers.PatchNullable | backend/src/main/java/com/example/learninganalysis/service/TeacherService.java:310-317 | a present key overwrites a nullable column (with null too); an absent key keeps it |
| Wrappers.Patch | backend/src/main/java/com/example/learninganalysis/service/TeacherService.java:306-309 | a present key overwrites a non-null column; an absent key keeps it |
| JavaStrings.Segments | backend/src/main/java/com/example/learninganalysis/config/JwtAuthenticationFilter.java:30 | there is at least one segment and none contains the separator |
| JavaStrings.StripTrailingEmpty | backend/src/main/java/com/example/learninganalysis/config/JwtAuthenticationFilter.java:30 | `split` drops trailing empty segments only, keeping the rest in order |
| JavaStrings.SplitThree | backend/src/main/java/com/example/learninganalysis/config/JwtAuthenticationFilter.java:30-31 | a text of three separator-free parts, the last non-empty, splits into exactly those three parts |
| JavaStrings.Join | frontend/src/components/teacher/LearningTargetForm.tsx:110-113 | a single part joins to itself (the partner is JoinThenSplitAll) |
| JavaStrings.JoinThenSplitAll | frontend/src/components/teacher/LearningTargetForm.tsx:110-113 | joining separator-free parts and splitting again gives the parts back |
| JavaStrings.ParseLong | backend/src/main/java/com/example/learninganalysis/controller/AdminController.java:96 | a value `Long.valueOf` accepts fits in 64 bits and comes from a non-empty text; the partner ParseLongText says every 64-bit value's text is accepted |
| JavaStrings.ParseLongText | backend/src/main/java/com/example/learninganalysis/controller/AdminController.java:96 | `Long.valueOf(Long.toString(n)) == n` for every 64-bit n |
| Users.RoleValueOf | backend/src/main/java/com/example/learninganalysis/model/User.java:24 | `UserRole.valueOf` gives the role with exactly that name, and fails iff no role has it |
| Users.RoleValueOfName | backend/src/main/java/com/example/learninganalysis/model/User.java:24 | every role's name reads back as that role |
| Users.ParseRoleIgnoringCase | backend/src/main/java/com/example/learninganalysis/controller/AuthController.java:90 | a typed role is accepted iff its upper-cased form is a role name, and then gives that role |
| Users.FindByUsername | backend/src/main/java/com/example/learninganalysis/repository/UserRepository.java:10 | the account with that username in the table if there is one, and nothing iff none has it |
| Activities.TypeValueOf | backend/src/main/java/com/example/learninganalysis/model/Activity.java:75-85 | `ActivityType.valueOf` accepts exactly the constant names and returns the type so named |
| Activities.TypeValueOfName | backend/src/main/java/com/example/learninganalysis/model/Activity.java:75-85 | every type's name reads back as that type |
| Activities.ToView | backend/src/main/java/com/example/learninganalysis/service/StudentService.java:307-326 | every column is copied: id, title, description, location, organizer, start and end times and the two counters; the enums by name; `creatorName` is present iff a known creator is set |
| Participations.Created | backend/src/main/java/com/example/learninganalysis/model/ActivityParticipation.java:42-51 | `onCreate` sets createdAt and updatedAt from two clock reads; registerTime changes iff the row is REGISTERED and has none, and then becomes the third read; nothing else changes |
| Participations.Updated | backend/src/main/java/com/example/learninganalysis/model/ActivityParticipation.java:53-63 | `onUpdate` moves updatedAt; a missing completeTime of a COMPLETED row, or else a missing cancelTime of a CANCELLED row, is filled in; nothing else changes |
| Participations.UpdatedTwice | backend/src/main/java/com/example/learninganalysis/model/ActivityParticipation.java:53-63 | a second update changes only updatedAt |
| Participations.ActivityParticipation.OnCreate | backend/src/main/java/com/example/learninganalysis/model/ActivityParticipation.java:42-51 | the object's row becomes `Created` of the old row |
| Participations.ActivityParticipation.OnUpdate | backend/src/main/java/com/example/learninganalysis/model/ActivityParticipation.java:53-63 | the object's row becomes `Updated` of the old row |
| Classes.ApplicationStatusValueOf | backend/src/main/java/com/example/learninganalysis/controller/ClassController.java:370 | `ApplicationStatus.valueOf` accepts exactly the constant names |
| Classes.IndexOf | backend/src/main/java/com/example/learninganalysis/service/ClassService.java:206 | the first position of x, or the length when x is absent |
| Classes.RemoveFirst | backend/src/main/java/com/example/learninganalysis/service/ClassService.java:206 | `List.remove(Object)` drops exactly the first occurrence (the first position holding x) and keeps the rest in order; as a bag, exactly one x goes; an absent x changes nothing |
| Classes.RemoveFromRoster | backend/src/main/java/com/example/learninganalysis/service/ClassService.java:206 | on a duplicate-free roster, removal takes the student out for good, keeps every other member and stays free of duplicates |
| Classes.AddToRoster | backend/src/main/java/com/example/learninganalysis/service/ClassService.java:117 | appending a student not yet listed keeps the roster free of duplicates |
| StudentServices.Matching | backend/src/main/java/com/example/learninganalysis/repository/ActivityParticipationRepository.java:28 | the positions, in table order, of exactly the rows of a (user, activity) pair |
| StudentServices.FindByUserAndActivity | backend/src/main/java/com/example/learninganalysis/repository/ActivityParticipationRepository.java:28 | the `Optional` lookup finds no row iff the pair has none, the single row when there is one, and fails (IncorrectResultSize) iff there are two or more |
| StudentServices.RegisteredCountUpdate | backend/src/main/java/com/example/learninganalysis/service/StudentService.java:195-202 | rewriting one row moves an activity's REGISTERED count by exactly the difference between the new and old row |
| StudentServices.RegisteredRowCounted | backend/src/main/java/com/example/learninganalysis/service/StudentService.java:200 | a REGISTERED row of an activity makes its count at least one |
| StudentServices.RegisteredCountOther | backend/src/main/java/com/example/learninganalysis/service/StudentService.java:168 | rewriting a row of another activity leaves this activity's count alone |
| StudentServices.RegisterCheck | backend/src/main/java/com/example/learninganalysis/service/StudentService.java:132-156 | `registerActivity`'s refusals in source order: unknown activity, unknown user, ended activity, full activity (even for someone already registered), then an existing REGISTERED row; several rows for the pair fail the lookup; anything else goes ahead |
| StudentServices.RegisteredRow | backend/src/main/java/com/example/learninganalysis/service/StudentService.java:179-192 | the lookups of cancel and complete: they pass iff the activity and user exist and the pair's single row is REGISTERED; no row is "not registered", a row in another status the caller's error |
| StudentServices.CompleteCheck | backend/src/main/java/com/example/learninganalysis/service/StudentService.java:212-231 | completion additionally needs an ended (COMPLETED) activity, checked after the row's status |
| StudentServices.ViewFor | backend/src/main/java/com/example/learninganalysis/service/StudentService.java:59-72 | one activity's map carries the user's participation status iff the user is known and has exactly one row for it, and then that row's status |
| StudentServices.Bumped | backend/src/main/java/com/example/learninganalysis/service/StudentService.java:168-169 | only the chosen activity's counter moves, by delta; every other activity is unchanged |
| StudentServices.CountedAfterInsert | backend/src/main/java/com/example/learninganalysis/service/StudentService.java:159-169 | a new row plus a counter raised by one keeps every counter at least its REGISTERED count |
| StudentServices.CountedAfterReplace | backend/src/main/java/com/example/learninganalysis/service/StudentService.java:194-202 | a rewritten row keeps the counters covering when the counter moves by no less than the change in REGISTERED rows |
| StudentServices.CancelFindsPositiveCounter | backend/src/main/java/com/example/learninganalysis/service/StudentService.java:200 | under the counter invariant the `currentParticipants > 0` guard of cancel always holds once the lookups pass |
| StudentServices.OneRowPerPairIsUnambiguous | backend/src/main/java/com/example/learninganalysis/repository/ActivityParticipationRepository.java:28 | with one row per pair the `Optional` lookup never sees several rows |
| StudentServices.OneRowPerPairAppend | backend/src/main/java/com/example/learninganalysis/service/StudentService.java:159-165 | inserting a row for a pair that has none keeps one row per pair |
| StudentServices.OneRowPerPairUpdate | backend/src/main/java/com/example/learninganalysis/service/StudentService.java:194-197 | rewriting a row for the same pair keeps one row per pair |
| StudentServices.RegisteredCountAppend | backend/src/main/java/com/example/learninganalysis/service/StudentService.java:165 | an appended row adds exactly its own contribution to each activity's count |
| StudentServices.RowsOf | backend/src/main/java/com/example/learninganalysis/repository/ActivityParticipationRepository.java:16 | `findByUser` gives exactly the user's rows in table order, each as often as it is stored: the table filtered by the user |
| StudentServices.StudentService.Project | backend/src/main/java/com/example/learninganalysis/service/StudentService.java:59-73 | the projection loop gives one map per listed activity with its participation status, and fails iff some lookup sees several rows |
| StudentServices.StudentService.GetActivities | backend/src/main/java/com/example/learninganalysis/service/StudentService.java:50-76 | every activity in start order with the user's status; it fails with NonUniqueResult iff the user is known and some listed activity has two or more rows for them; an unknown user is no error and gets no statuses |
| StudentServices.OfType | backend/src/main/java/com/example/learninganalysis/service/StudentService.java:106 | `findByTypeOrderByStartTimeDesc`: the activities of the type, drawn from the start-ordered listing, and every activity of the type is among them |
| StudentServices.OfTypeKeepsStartOrder | backend/src/main/java/com/example/learninganalysis/service/StudentService.java:106 | the activities of one type keep the latest-start-first order of the full listing, each once |
| StudentServices.StudentService.GetActivitiesByType | backend/src/main/java/com/example/learninganalysis/service/StudentService.java:97-130 | fails with "unsupported type" iff the upper-cased text names no type; otherwise fails with NonUniqueResult iff the user is known and has two rows for a listed activity, and else gives one view per activity of `OfType`, in that order, each the activity with the user's status; every activity of the type appears |
| StudentServices.StudentService.GetMyActivities | backend/src/main/java/com/example/learninganalysis/service/StudentService.java:78-95 | fails iff the user is unknown; otherwise one map per participation row of the user, each with that row's status |
| StudentServices.StudentService.GetActivityDetail | backend/src/main/java/com/example/learninganalysis/service/StudentService.java:268-286 | unknown activity, then unknown user, are errors; otherwise the activity's map with the user's status (several rows fail the lookup) |
| StudentServices.StudentService.RegisterActivity | backend/src/main/java/com/example/learninganalysis/service/StudentService.java:132-176 | a refusal changes nothing; otherwise a NEW REGISTERED row stamped by `onCreate` is appended and the counter rises by one; the reply says REGISTERED |
| StudentServices.StudentService.InsertRegistration | backend/src/main/java/com/example/learninganalysis/service/StudentService.java:159-169 | the save of the new row and the counter update, keeping the service invariant |
| StudentServices.StudentService.SaveRow | backend/src/main/java/com/example/learninganalysis/service/StudentService.java:194-202 | the save of an edited row (stamped by `onUpdate`) and the counter move, keeping the service invariant |
| StudentServices.StudentService.CancelActivity | backend/src/main/java/com/example/learninganalysis/service/StudentService.java:178-210 | a failed lookup changes nothing; otherwise the row becomes CANCELLED with cancelTime now, the counter drops by one unless already zero, and the reply says CANCELLED |
| StudentServices.StudentService.CompleteActivity | backend/src/main/java/com/example/learninganalysis/service/StudentService.java:212-243 | a failed check changes nothing; otherwise the row becomes COMPLETED with completeTime now; the counter is not touched |
| StudentServices.StudentService.RegisterActivityReusingRow | backend/src/main/java/com/example/learninganalysis/service/StudentService.java:150-169 | the corrected registration: same refusals, but an existing CANCELLED or COMPLETED row is turned back to REGISTERED instead of a second row being inserted, so one row per pair is preserved |
| StudentServiceRuns.RegisteredAndCancelled | backend/src/main/java/com/example/learninganalysis/service/StudentService.java:132-210 | registering and cancelling on a fresh service leaves a single CANCELLED row for the pair |
| StudentServiceRuns.ReRegistrationChecks | backend/src/main/java/com/example/learninganalysis/service/StudentService.java:140-156 | a CANCELLED row does not block a second registration |
| StudentServiceRuns.ReRegisterThenCancelFails | backend/src/main/java/com/example/learninganalysis/service/StudentService.java:150-165 | register, cancel, register, cancel: the last cancel fails because the pair now has two rows |
| StudentServiceRuns.ReRegisterThenCancelSucceeds | backend/src/main/java/com/example/learninganalysis/service/StudentService.java:150-165 | with the row-reusing registration the same run ends CANCELLED with the counter back at zero |
| ClassServices.OwnerCheck | backend/src/main/java/com/example/learninganalysis/service/ClassService.java:96 | the ownership test passes iff the class's teacher is the caller; a class without a teacher fails with a NullPointerException |
| ClassServices.ApplyCheck | backend/src/main/java/com/example/learninganalysis/service/ClassService.java:60-76 | an application goes ahead iff student and class exist, the student is not a member, and no application of ANY status exists for the pair; each refusal in source order |
| ClassServices.ProcessCheck | backend/src/main/java/com/example/learninganalysis/service/ClassService.java:91-103 | processing goes ahead iff the application exists, the caller teaches its class and it is still PENDING; each refusal in source order |
| ClassServices.Processed | backend/src/main/java/com/example/learninganalysis/service/ClassService.java:105-111 | the handled application has the new status and time, a reason only for a rejection, and keeps student, class and message |
| ClassServices.Admitted | backend/src/main/java/com/example/learninganalysis/service/ClassService.java:113-119 | only an approval changes the classes: it appends the student to that class's roster, unchecked, and touches nothing else |
| ClassServices.CancelCheck | backend/src/main/java/com/example/learninganalysis/service/ClassService.java:142-154 | a cancellation goes ahead iff the caller is the applicant and the application is PENDING |
| ClassServices.UpdateCheck | backend/src/main/java/com/example/learninganalysis/service/ClassService.java:171-178 | an update goes ahead iff the class exists and the caller teaches it |
| ClassServices.RemoveCheck | backend/src/main/java/com/example/learninganalysis/service/ClassService.java:190-204 | removal goes ahead iff the class exists, the caller teaches it, the student exists and is a member; each refusal in source order |
| ClassServices.RostersAfterApply | backend/src/main/java/com/example/learninganalysis/service/ClassService.java:78-84 | within ClassService's own operations, a new PENDING application that passed the checks keeps rosters duplicate-free and pending applicants out of the roster |
| ClassServices.RostersAfterProcess | backend/src/main/java/com/example/learninganalysis/service/ClassService.java:105-121 | within ClassService's own operations, handling a pending application keeps that roster condition: an approved applicant was not yet a member |
| ClassServices.RostersAfterRemove | backend/src/main/java/com/example/learninganalysis/service/ClassService.java:206-207 | removing a member keeps that roster condition |
| ClassServices.HandledOnce | backend/src/main/java/com/example/learninganalysis/service/ClassService.java:100-103 | once an application has a final status, every later attempt to process it, by any teacher, is refused |
| ClassServices.ClassService.CreateClass | backend/src/main/java/com/example/learninganalysis/service/ClassService.java:30-33 | a new, empty class with the given teacher is stored under a fresh id; nothing else changes |
| ClassServices.ClassService.ApplyToJoinClass | backend/src/main/java/com/example/learninganalysis/service/ClassService.java:60-85 | a refusal changes nothing; otherwise exactly one new PENDING application carrying the message is stored |
| ClassServices.ClassService.ProcessApplication | backend/src/main/java/com/example/learninganalysis/service/ClassService.java:91-122 | a refusal changes nothing; otherwise the application is handled as `Processed` and the roster changes as `Admitted` |
| ClassServices.ClassService.CancelApplication | backend/src/main/java/com/example/learninganalysis/service/ClassService.java:142-157 | the result is `CancelCheck`; on success only that application is deleted |
| ClassServices.ClassService.UpdateClass | backend/src/main/java/com/example/learninganalysis/service/ClassService.java:171-184 | a refusal changes nothing; the owner's update replaces only name and description |
| ClassServices.ClassService.RemoveStudentFromClass | backend/src/main/java/com/example/learninganalysis/service/ClassService.java:190-208 | the result is `RemoveCheck`; on success the roster is `RemoveFirst` of the old one, one copy shorter, losing exactly one copy of the student; only on a roster listing the student once is the student then gone with every other member kept |
| UserServices.RegisterCheck | backend/src/main/java/com/example/learninganalysis/service/UserService.java:36-42 | registration is refused for a taken username first, then for a taken email, and goes ahead iff neither is taken |
| UserServices.NewAccount | backend/src/main/java/com/example/learninganalysis/service/UserService.java:43-44 | the stored account is the submitted one with the encoder's output in place of the raw password |
| UserServices.RegisterKeepsUnique | backend/src/main/java/com/example/learninganalysis/service/UserService.java:36-44 | a registration that passed the checks keeps usernames and emails unique |
| UserServices.ValidateUserCredentials | backend/src/main/java/com/example/learninganalysis/service/UserService.java:57-63 | an unknown username is an error; otherwise the account iff `matches(password, stored)`, else "wrong password" |
| UserServices.RegisteredCanLogIn | backend/src/main/java/com/example/learninganalysis/service/UserService.java:36-63 | after registering, the same username and raw password log in and give the new account (for an encoder that `matches` accepts) |
| UserServices.AssignmentCheck | backend/src/main/java/com/example/learninganalysis/service/UserService.java:70-80 | the automatic class assignment goes ahead iff the user and class exist and the user is a STUDENT |
| UserServices.ProfileCheck | backend/src/main/java/com/example/learninganalysis/service/UserService.java:99-112 | an unknown user is an error; a non-null email already used by ANOTHER account is refused; one's own email never is |
| UserServices.ProfileUpdated | backend/src/main/java/com/example/learninganalysis/service/UserService.java:103-118 | each of name, email and avatarUrl is replaced only when the incoming value is non-null; id, username, password and role stay |
| UserServices.ProfileKeepsUnique | backend/src/main/java/com/example/learninganalysis/service/UserService.java:99-121 | an accepted profile update keeps usernames and emails unique |
| UserServices.PasswordCheck | backend/src/main/java/com/example/learninganalysis/service/UserService.java:126-133 | a password change goes ahead iff the user exists and the old password matches |
| UserServices.NewPasswordLogsIn | backend/src/main/java/com/example/learninganalysis/service/UserService.java:126-138 | after a change the new password logs in and the accounts stay unique |
| UserServices.UserService.RegisterUser | backend/src/main/java/com/example/learninganalysis/service/UserService.java:36-45 | a refusal changes nothing; otherwise the `NewAccount` is stored under a fresh id |
| UserServices.UserService.ProcessStudentClassAssignment | backend/src/main/java/com/example/learninganalysis/service/UserService.java:70-94 | the result is `AssignmentCheck`; on success one APPROVED application with the fixed message and the time is stored and the student is appended to the roster |
| UserServices.UserService.UpdateUserProfile | backend/src/main/java/com/example/learninganalysis/service/UserService.java:99-121 | a refusal changes nothing; otherwise the account becomes `ProfileUpdated` |
| UserServices.UserService.ChangePassword | backend/src/main/java/com/example/learninganalysis/service/UserService.java:126-138 | a refusal changes nothing; otherwise only the password changes, to encode(newPassword) |
| TeacherRules.GoalStatusValueOf | backend/src/main/java/com/example/learninganalysis/model/LearningGoal.java:60 | `GoalStatus.valueOf` gives the status with exactly that name, and fails iff none has it |
| TeacherRules.GoalStatusValueOfName | backend/src/main/java/com/example/learninganalysis/model/LearningGoal.java:60 | every goal status's name reads back as that status |
| TeacherRules.TeacherOf | backend/src/main/java/com/example/learninganalysis/service/TeacherService.java:257-258 | the caller is found iff the username exists, and is then the account with that username; otherwise "teacher not found" |
| TeacherRules.NewActivity | backend/src/main/java/com/example/learninganalysis/service/TeacherService.java:256-291 | creation succeeds iff every required key is present, the type is a constant name and both times parse; the new activity is UPCOMING, has 0 participants, belongs to the caller and carries the submitted fields; a missing maximum and an unknown type fail with their own errors |
| TeacherRules.ActivityOwnerCheck | backend/src/main/java/com/example/learninganalysis/service/TeacherService.java:301-303 | an activity may be edited iff it has no creator or the caller created it |
| TeacherRules.ActivityPatched | backend/src/main/java/com/example/learninganalysis/service/TeacherService.java:306-342 | only the present keys change their fields, a present null on a non-null column fails, an unknown type fails, and the times change only when both are present; id, counter, status and creator never change |
| TeacherRules.EmptyPatchKeepsActivity | backend/src/main/java/com/example/learninganalysis/service/TeacherService.java:306-342 | an update with no keys leaves the activity as it was |
| TeacherRules.ActivityPatchIdempotent | backend/src/main/java/com/example/learninganalysis/service/TeacherService.java:306-342 | applying the same partial update twice gives the same activity as applying it once |
| TeacherRules.CreatedBy | backend/src/main/java/com/example/learninganalysis/service/TeacherService.java:238 | `findByCreator`: the listing filtered by creator, so exactly the activities created by the teacher, in repository order |
| TeacherRules.ClassOwnerCheck | backend/src/main/java/com/example/learninganalysis/service/TeacherService.java:509-515 | a class may be used iff it exists and has the caller as teacher; a class without a teacher fails with a NullPointerException |
| TeacherRules.ClassDetailOf | backend/src/main/java/com/example/learninganalysis/service/TeacherService.java:517-536 | the detail's studentCount is the size of the roster it lists |
| TeacherRules.AddStudentCheck | backend/src/main/java/com/example/learninganalysis/service/TeacherService.java:616-630 | adding goes ahead iff the caller owns the class and the target exists with role STUDENT; membership is not checked |
| TeacherRules.RemoveStudentCheck | backend/src/main/java/com/example/learninganalysis/service/TeacherService.java:648-657 | removing goes ahead iff the caller owns the class and the student exists; membership is not required |
| TeacherRules.StudentIdOf | backend/src/main/java/com/example/learninganalysis/service/TeacherService.java:704 | `Long.valueOf(data.get("studentId").toString())`: a missing or null id is a NullPointerException, a non-number a NumberFormatException, otherwise the parsed id |
| TeacherRules.EvaluationOwnerCheck | backend/src/main/java/com/example/learninganalysis/service/TeacherService.java:732-738 | an evaluation may be used iff it exists and the caller wrote it |
| TeacherRules.DueDate | backend/src/main/java/com/example/learninganalysis/service/TeacherService.java:987-991 | a null or empty deadline gives no due date; otherwise the deadline followed by "T23:59:59" must parse, and is the due date |
| TeacherRules.NewGoal | backend/src/main/java/com/example/learninganalysis/service/TeacherService.java:982-999 | a new goal is IN_PROGRESS at progress 0, set by the caller for the student, with the submitted title and description and the `DueDate` of the deadline |
| TeacherRules.GoalOwnerCheck | backend/src/main/java/com/example/learninganalysis/service/TeacherService.java:1038-1044 | a goal may be used iff it exists and the caller set it |
| TeacherRules.GoalPatched | backend/src/main/java/com/example/learninganalysis/service/TeacherService.java:1047-1079 | only present keys change their fields; a present null or empty deadline clears the due date; an unknown status fails; id, student and teacher never change |
| TeacherRules.EmptyPatchKeepsGoal | backend/src/main/java/com/example/learninganalysis/service/TeacherService.java:1047-1079 | an update with no keys leaves the goal as it was |
| TeacherRules.GoalPatchIdempotent | backend/src/main/java/com/example/learninganalysis/service/TeacherService.java:1047-1079 | applying the same partial goal update twice is the same as once |
| TeacherRules.AddedTwiceSurvivesOneRemove | backend/src/main/java/com/example/learninganalysis/service/TeacherService.java:633-660 | since adding does not check membership, a student added twice stays a member after one removal |
| TeacherRules.GoalViewOf | backend/src/main/java/com/example/learninganalysis/service/TeacherService.java:1153-1166 | a listed goal shows the goal's id, title, description, due date, status name and progress |
| TeacherRules.SetBy | backend/src/main/java/com/example/learninganalysis/service/TeacherService.java:1150-1152 | the listing filtered by setter, so exactly the goals set by the calling teacher, in repository order |
| TeacherServices.TeacherService.GetMyActivities | backend/src/main/java/com/example/learninganalysis/service/TeacherService.java:233-246 | an unknown caller is an error; otherwise one map per activity the caller created, in repository order |
| TeacherServices.TeacherService.CreateActivity | backend/src/main/java/com/example/learninganalysis/service/TeacherService.java:256-291 | the result is `NewActivity` under a fresh id, stored only on success; other tables unchanged |
| TeacherServices.TeacherService.ActivityAccess | backend/src/main/java/com/example/learninganalysis/service/TeacherService.java:293-303 | an update or delete is allowed iff the caller exists, the activity exists and `ActivityOwnerCheck` passes; errors in source order |
| TeacherServices.TeacherService.UpdateActivity | backend/src/main/java/com/example/learninganalysis/service/TeacherService.java:293-348 | a refusal changes nothing; otherwise the result is `ActivityPatched`, stored only on success |
| TeacherServices.TeacherService.DeleteActivity | backend/src/main/java/com/example/learninganalysis/service/TeacherService.java:350-372 | a refused access check changes nothing; an activity that participation rows still name is refused as `StillReferenced` (their non-null `activity_id`, ActivityParticipation.java:19-21) and kept; otherwise only that activity is deleted |
| TeacherServices.TeacherService.ClassAccess | backend/src/main/java/com/example/learninganalysis/service/TeacherService.java:503-515 | a class operation is allowed iff the caller exists and owns the class |
| TeacherServices.TeacherService.GetClassDetail | backend/src/main/java/com/example/learninganalysis/service/TeacherService.java:503-539 | the owner gets the class detail with studentCount equal to the roster size; anyone else an error |
| TeacherServices.TeacherService.CreateClass | backend/src/main/java/com/example/learninganalysis/service/TeacherService.java:541-560 | a new, empty class with the submitted name and description, taught by the caller, under a fresh id |
| TeacherServices.TeacherService.UpdateClass | backend/src/main/java/com/example/learninganalysis/service/TeacherService.java:562-588 | the owner's update overwrites name and description (with null too); others change nothing |
| TeacherServices.TeacherService.DeleteClass | backend/src/main/java/com/example/learninganalysis/service/TeacherService.java:590-610 | the class access check first; a class that applications still name is refused as `StillReferenced` (their non-null `class_id`, ClassApplication.java:19-21) and kept; otherwise only that class is deleted |
| TeacherServices.TeacherService.AddStudentToClass | backend/src/main/java/com/example/learninganalysis/service/TeacherService.java:612-642 | the result is `AddStudentCheck`; on success the student is appended, unchecked, to the roster |
| TeacherServices.TeacherService.RemoveStudentFromClass | backend/src/main/java/com/example/learninganalysis/service/TeacherService.java:644-669 | the result is `RemoveStudentCheck`; on success the first occurrence is removed, a non-member leaving the roster as it was |
| TeacherServices.TeacherService.CreateEvaluation | backend/src/main/java/com/example/learninganalysis/service/TeacherService.java:699-726 | succeeds iff the caller exists and the student id parses and exists; the new evaluation joins the pair with the submitted content and grade |
| TeacherServices.TeacherService.EvaluationAccess | backend/src/main/java/com/example/learninganalysis/service/TeacherService.java:728-738 | an evaluation may be changed iff the caller exists and wrote it |
| TeacherServices.TeacherService.UpdateEvaluation | backend/src/main/java/com/example/learninganalysis/service/TeacherService.java:728-755 | the author's update replaces content and grade; others change nothing |
| TeacherServices.TeacherService.DeleteEvaluation | backend/src/main/java/com/example/learninganalysis/service/TeacherService.java:757-777 | the result is the evaluation access check; on success only that evaluation is deleted |
| TeacherServices.TeacherService.CreateGoal | backend/src/main/java/com/example/learninganalysis/service/TeacherService.java:972-1030 | caller, then student id, then student are checked; the result is `NewGoal`, stored only on success |
| TeacherServices.TeacherService.GoalAccess | backend/src/main/java/com/example/learninganalysis/service/TeacherService.java:1033-1044 | a goal may be used iff the caller exists and set it |
| TeacherServices.TeacherService.GetGoalDetail | backend/src/main/java/com/example/learninganalysis/service/TeacherService.java:916-970 | the goal's setter gets the goal; anyone else an error |
| TeacherServices.TeacherService.UpdateGoal | backend/src/main/java/com/example/learninganalysis/service/TeacherService.java:1033-1108 | a refusal changes nothing; otherwise the result is `GoalPatched`, stored only on success |
| TeacherServices.TeacherService.DeleteGoal | backend/src/main/java/com/example/learninganalysis/service/TeacherService.java:1111-1134 | the result is the goal access check; on success only that goal is deleted |
| TeacherServices.TeacherService.GetStudentGoals | backend/src/main/java/com/example/learninganalysis/service/TeacherService.java:1137-1173 | errors for an unknown caller or student; otherwise the student's goals set by the caller, in repository order |
| AdminServices.TeacherCheck | backend/src/main/java/com/example/learninganalysis/service/AdminService.java:40-46 | an assignee is accepted iff the user exists and has role TEACHER; a missing user and a non-teacher fail with their own errors |
| AdminServices.UpdateLogDetail | backend/src/main/java/com/example/learninganalysis/service/AdminService.java:157-160 | the update's log text mentions the reassigned teacher id iff a teacher id was given |
| AdminServices.ManagedCountAfterNewClass | backend/src/main/java/com/example/learninganalysis/service/AdminService.java:182-183 | a new class raises its teacher's `managedClassCount` by one and no one else's |
| AdminServices.ManagedCountAfterReassign | backend/src/main/java/com/example/learninganalysis/service/AdminService.java:141-151 | reassigning a class moves one from the old teacher's count to the new one's |
| AdminServices.TeachersOf | backend/src/main/java/com/example/learninganalysis/service/AdminService.java:193 | `findByRole(TEACHER)`: the listing filtered by role, so exactly the teachers, in repository order |
| AdminServices.WithoutClass | backend/src/main/java/com/example/learninganalysis/service/AdminService.java:196-197 | `removeAll` is the list filtered by having no class, so exactly the teachers who teach no class, in order |
| AdminServices.ClassDetail | backend/src/main/java/com/example/learninganalysis/service/AdminService.java:92-125 | an unknown class is an error and a class without a teacher a NullPointerException; otherwise its teacher and roster, with studentCount the roster's length |
| AdminServices.AdminService.CreateClass | backend/src/main/java/com/example/learninganalysis/service/AdminService.java:38-60 | a refused assignee changes nothing; otherwise the class is stored with that teacher and exactly one CLASS_CREATE log entry attributed to the admin is written |
| AdminServices.AdminService.UpdateCheck | backend/src/main/java/com/example/learninganalysis/service/AdminService.java:133-148 | the update goes ahead iff the class exists and a given teacher id names a TEACHER |
| AdminServices.AdminService.UpdateClass | backend/src/main/java/com/example/learninganalysis/service/AdminService.java:132-164 | name and description are always overwritten; the teacher changes only for a non-null id; exactly one CLASS_UPDATE entry is written |
| AdminServices.AdminService.GetUnassignedTeachers | backend/src/main/java/com/example/learninganalysis/service/AdminService.java:192-208 | exactly the teachers who teach no class, in their original order |
| Logs.GetClientIpAddress | backend/src/main/java/com/example/learninganalysis/service/LogService.java:46-58 | the first of X-Forwarded-For, Proxy-Client-IP and WL-Proxy-Client-IP that is non-null, non-empty and not "unknown" in any case wins; the remote address only when none does |
| Logs.Where | backend/src/main/java/com/example/learninganalysis/service/LogService.java:65-84 | a derived finder keeps exactly the listed logs that satisfy its condition, in repository order |
| Logs.WhereAgree | backend/src/main/java/com/example/learninganalysis/service/LogService.java:65-84 | two conditions that agree on every listed log select the same logs |
| Logs.WhereAll | backend/src/main/java/com/example/learninganalysis/service/LogService.java:83 | `findAll`: the condition that holds everywhere keeps every log |
| Logs.FindLogs | backend/src/main/java/com/example/learninganalysis/service/LogService.java:63-85 | every branch of the dispatch returns exactly the logs that satisfy each supplied filter, the time range counting only when both ends are given; with no filter that is every log |
| Logs.NewLog | backend/src/main/java/com/example/learninganalysis/service/LogService.java:26-40 | a new log stores the operation type's enum name, the detail, the address and the time, and records a user and its role iff a user is given |
| Logs.LogService.CreateLog | backend/src/main/java/com/example/learninganalysis/service/LogService.java:26-41 | exactly one new log, `NewLog`, is stored under a fresh id |
| Logs.LogService.GetLogById | backend/src/main/java/com/example/learninganalysis/service/LogService.java:90-93 | the stored log iff the id exists, else "log not found" |
| Auditing.DetermineOperationType | backend/src/main/java/com/example/learninganalysis/aspect/LoggingAspect.java:117-144 | GETs are never audited; the class branch (a ClassController signature, or AdminController together with "class") answers alone, POST/PUT/DELETE becoming CLASS_CREATE/UPDATE/DELETE; ActivityController gives the activity writes; UserController only USER_UPDATE and USER_DELETE |
| Auditing.ControllerLogEntry | backend/src/main/java/com/example/learninganalysis/aspect/LoggingAspect.java:72-97 | an entry is written iff there is a request, an authenticated non-anonymous principal that is a known user, and a classified operation; it is attributed to that user |
| Auditing.LogControllerAccess | backend/src/main/java/com/example/learninganalysis/aspect/LoggingAspect.java:72-114 | no entry, or exactly the one `ControllerLogEntry` describes |
| Auditing.LoginLogUser | backend/src/main/java/com/example/learninganalysis/aspect/LoggingAspect.java:49-54 | the login audit fires iff the first argument is a Map with a non-empty username of a known user |
| Auditing.LogLoginOperation | backend/src/main/java/com/example/learninganalysis/aspect/LoggingAspect.java:44-68 | no entry, or exactly one USER_LOGIN entry for the user `LoginLogUser` found |
| Auditing.LoginIsNeverLogged | backend/src/main/java/com/example/learninganalysis/aspect/LoggingAspect.java:49 | the login endpoint receives a User, not a Map, so the login audit never fires |
| Auditing.IntendedLoginUser | backend/src/main/java/com/example/learninganalysis/aspect/LoggingAspect.java:43-63 | the corrected guard: a successful login of a known user is attributed to that user |
| Auditing.LogSuccessfulLogin | backend/src/main/java/com/example/learninganalysis/aspect/LoggingAspect.java:43-63 | the corrected aspect writes exactly one USER_LOGIN entry for each successful login of a known user |
| Tokens.LoginToken | backend/src/main/java/com/example/learninganalysis/controller/AuthController.java:154-157 | the login token is the username, the role name and the uuid joined by '.', so it starts with the username |
| Tokens.StripBearer | backend/src/main/java/com/example/learninganalysis/controller/ClassController.java:46-48 | a leading "Bearer " is removed when present, and only then |
| Tokens.ClassTokenCaller | backend/src/main/java/com/example/learninganalysis/controller/ClassController.java:46-57 | ClassController accepts a token iff it splits into at least 3 parts, and then reads the username from part 0 and the role from part 1 |
| Tokens.FilterAuthentication | backend/src/main/java/com/example/learninganalysis/config/JwtAuthenticationFilter.java:23-46 | the filter authenticates iff the header starts with "Bearer ", the rest splits into at least 2 parts, and part 1 has a non-white-space character (`new SimpleGrantedAuthority` refuses a blank one and the catch clears the context); principal part 0, authority part 1 verbatim |
| Tokens.DoFilter | backend/src/main/java/com/example/learninganalysis/config/JwtAuthenticationFilter.java:19-54 | the request always continues down the chain, carrying `FilterAuthentication` of the header |
| Tokens.LoginTokenPassesFilter | backend/src/main/java/com/example/learninganalysis/controller/AuthController.java:154-157 | a login token for a username without '.', sent as "Bearer " + token, gives the filter that username and role |
| Tokens.LoginTokenPassesClassController | backend/src/main/java/com/example/learninganalysis/controller/ClassController.java:46-57 | the same token gives ClassController that username and role |
| Tokens.RoleNameHasNoDot | backend/src/main/java/com/example/learninganalysis/controller/AuthController.java:154-157 | no role name contains '.', so the role is always one token part |
| Tokens.TwoSegmentsSplitTheReaders | backend/src/main/java/com/example/learninganalysis/controller/ClassController.java:51 | a two-part token authenticates at the filter but is refused by ClassController's three-part rule |
| Tokens.BlankAuthorityStaysAnonymous | backend/src/main/java/com/example/learninganalysis/config/JwtAuthenticationFilter.java:38-51 | a three-part token whose role part is empty or blank, such as "Bearer alice..x", leaves the request anonymous |
| Tokens.HeaderUsername | backend/src/main/java/com/example/learninganalysis/controller/UserController.java:38-39 | UserController takes the first '.'-separated part of the raw header as the username |
| Tokens.HeaderUsernameKeepsBearer | backend/src/main/java/com/example/learninganalysis/controller/UserController.java:38-39 | for the header the client sends, that username is "Bearer " + username, never the username |
| Tokens.BearerUsername | backend/src/main/java/com/example/learninganalysis/controller/UserController.java:38-39 | the corrected reading strips "Bearer " first |
| Tokens.BearerUsernameReadsLogin | backend/src/main/java/com/example/learninganalysis/controller/UserController.java:38-39 | the corrected reading gives back the login username |
| SecurityRules.FirstMatch | backend/src/main/java/com/example/learninganalysis/config/SecurityConfig.java:30-36 | the first rule, in listed order, whose patterns match the path; none iff no rule matches |
| SecurityRules.Permits | backend/src/main/java/com/example/learninganalysis/config/SecurityConfig.java:30-36 | a request is allowed iff the first matching rule permits all, finds its authority on the caller, or needs only authentication and finds a caller |
| SecurityRules.EveryPathHasARule | backend/src/main/java/com/example/learninganalysis/config/SecurityConfig.java:35 | the final `anyRequest` rule matches every path |
| SecurityRules.FirstMatchIsIndex | backend/src/main/java/com/example/learninganalysis/config/SecurityConfig.java:30-36 | the first matching rule is the one that matches with no earlier rule matching |
| SecurityRules.OtherPathsNeedAuthentication | backend/src/main/java/com/example/learninganalysis/config/SecurityConfig.java:35 | every path outside the six listed prefixes, /api/classes included, needs only a caller |
| SecurityRules.PublicPathsArePermitted | backend/src/main/java/com/example/learninganalysis/config/SecurityConfig.java:31 | /api/auth/**, /assets/** and /uploads/** are allowed without a caller |
| SecurityRules.StudentAreaNeedsStudent | backend/src/main/java/com/example/learninganalysis/config/SecurityConfig.java:32 | /api/student/** is allowed iff the caller's authority is exactly STUDENT |
| SecurityRules.TeacherAreaNeedsTeacher | backend/src/main/java/com/example/learninganalysis/config/SecurityConfig.java:33 | /api/teacher/** is allowed iff the caller's authority is exactly TEACHER |
| SecurityRules.AdminAreaNeedsAdmin | backend/src/main/java/com/example/learninganalysis/config/SecurityConfig.java:34 | /api/admin/** is allowed iff the caller's authority is exactly ADMIN |
| SecurityRules.LoggedInTeacherArea | backend/src/main/java/com/example/learninganalysis/config/SecurityConfig.java:33 | with a login token through the filter, the teacher area admits exactly the teachers |
| SecurityRules.AnonymousOnlyPublic | backend/src/main/java/com/example/learninganalysis/config/SecurityConfig.java:31-35 | a request without a header reaches only the public prefixes |
| AuthControllers.RegisterFormCheck | backend/src/main/java/com/example/learninganalysis/controller/AuthController.java:57-99 | registration is refused for a missing field, then for a taken username, then for a taken email, each with its own message and field, and otherwise succeeds iff the upper-cased role names a role |
| AuthControllers.RegisterAvatar | backend/src/main/java/com/example/learninganalysis/controller/AuthController.java:101-122 | an upload that is present and not empty is stored under uploads/avatars/ with a fresh name and its own extension; otherwise the default avatar |
| AuthControllers.FormUser | backend/src/main/java/com/example/learninganalysis/controller/AuthController.java:83-91 | the account handed to the service carries the form's username, password, name, email, the parsed role and the avatar path |
| AuthControllers.Register | backend/src/main/java/com/example/learninganalysis/controller/AuthController.java:46-145 | a refused form changes no account; an accepted one stores exactly the new account, with the encoded password and the next id, and returns it |
| AuthControllers.LoginAvatar | backend/src/main/java/com/example/learninganalysis/controller/AuthController.java:171-175 | the login view shows the stored avatar unless it is null or empty, and then the default picture; never an empty path |
| AuthControllers.Login | backend/src/main/java/com/example/learninganalysis/controller/AuthController.java:147-188 | login fails exactly when the credential check fails, with its message; on success the token is the login token of the checked account and the view shows that account |
| AuthControllers.RegisterThenLogin | backend/src/main/java/com/example/learninganalysis/controller/AuthController.java:46-188 | an account registered through the form logs in with its raw password, and its token sent as "Bearer " + token authenticates that username with that role at the filter |
| ClassControllers.RequiredRole | backend/src/main/java/com/example/learninganalysis/controller/ClassController.java:46-62 | each endpoint demands exactly the TEACHER or the STUDENT role claim |
| ClassControllers.Authorize | backend/src/main/java/com/example/learninganalysis/controller/ClassController.java:46-62 | a token that does not split into three parts is refused as invalid, a wrong role claim with the endpoint's own message; otherwise the caller is the stored account of the token's username, if any |
| ClassControllers.RoleClaimIsTrusted | backend/src/main/java/com/example/learninganalysis/controller/ClassController.java:354-368 | the guard believes the role part of the token: a token with the claim TEACHER opens a teacher endpoint to any stored account |
| ClassControllers.StatusOf | backend/src/main/java/com/example/learninganalysis/controller/ClassController.java:369-370 | a missing status and a name that is not an application status are refused; otherwise the status of that exact name |
| ClassControllers.RejectReason | backend/src/main/java/com/example/learninganalysis/controller/ClassController.java:372-375 | the reason is empty unless the new status is REJECTED; then it is the body's reason, empty when the key is absent and null when it is null |
| ClassControllers.ProcessOne | backend/src/main/java/com/example/learninganalysis/controller/ClassController.java:377 | one service call: it succeeds iff the service's checks pass, sets the application's status, and a failure leaves every class and application unchanged |
| ClassControllers.Batch | backend/src/main/java/com/example/learninganalysis/controller/ClassController.java:574-594 | one result per id, in order, each carrying its own id, every application processed on the state the earlier ones left |
| ClassControllers.BatchAppend | backend/src/main/java/com/example/learninganalysis/controller/ClassController.java:576-594 | the batch over two id lists is the batch over the first followed by the batch over the second, starting from the state the first left |
| ClassControllers.BatchKeepsHandled | backend/src/main/java/com/example/learninganalysis/controller/ClassController.java:576-594 | an application that is no longer pending stays so through any batch |
| ClassControllers.BatchHandlesOnce | backend/src/main/java/com/example/learninganalysis/controller/ClassController.java:576-594 | an id repeated in one batch succeeds at most once: after a success every later occurrence fails |
| ClassControllers.ProcessRequestCheck | backend/src/main/java/com/example/learninganalysis/controller/ClassController.java:348-370 | the guard's refusal comes first; then the status's refusal; otherwise the caller and the parsed status |
| ClassControllers.ProcessApplication | backend/src/main/java/com/example/learninganalysis/controller/ClassController.java:343-384 | a refused request changes nothing; an accepted one makes exactly the one service step on the caller's behalf and returns its application or its error |
| ClassControllers.BatchCheck | backend/src/main/java/com/example/learninganalysis/controller/ClassController.java:541-567 | after the guard, a missing or empty id list is refused, then an action other than approve/reject; approve means APPROVED and reject REJECTED |
| ClassControllers.ProcessBatchApplications | backend/src/main/java/com/example/learninganalysis/controller/ClassController.java:524-606 | a refused request changes nothing; otherwise the classes and applications become those of the batch and the report lists its results with totalProcessed equal to their number |
| AdminControllers.ValidateAdmin | backend/src/main/java/com/example/learninganalysis/controller/AdminController.java:40-50 | an admin request needs an authentication, a stored account with its name, and that account's role ADMIN; each failure has its own refusal |
| AdminControllers.ClaimedAdminIsChecked | backend/src/main/java/com/example/learninganalysis/controller/AdminController.java:40-50 | a token claiming ADMIN for an account that is not an administrator is refused: the stored role decides |
| AdminControllers.CreateTeacherId | backend/src/main/java/com/example/learninganalysis/controller/AdminController.java:96 | createClass needs a teacher id that is present and reads as a 64-bit number |
| AdminControllers.UpdateTeacherId | backend/src/main/java/com/example/learninganalysis/controller/AdminController.java:132-135 | updateClass reads no teacher id when the key is missing, and otherwise needs one that reads as a 64-bit number |
| AdminControllers.TeacherIdRoundTrip | backend/src/main/java/com/example/learninganalysis/controller/AdminController.java:96 | a 64-bit id sent as its decimal text reads back as that id, for both endpoints |
| AdminControllers.CreateClass | backend/src/main/java/com/example/learninganalysis/controller/AdminController.java:85-115 | a refused request changes neither the classes nor the log; an accepted one stores exactly the new class with the next id and writes exactly one CLASS_CREATE entry by the administrator |
| AdminControllers.UpdateClass | backend/src/main/java/com/example/learninganalysis/controller/AdminController.java:120-154 | a refused request changes nothing; an accepted one replaces the class's name and description, the teacher only when one is given, and writes exactly one CLASS_UPDATE entry |
| AdminControllers.RoleFilter | backend/src/main/java/com/example/learninganalysis/controller/AdminController.java:199-206 | no role, or an empty one, filters nothing; otherwise the filter is the role whose name the upper-cased text is, and the request is refused when none is |
| AdminControllers.RoleFilterOfName | backend/src/main/java/com/example/learninganalysis/controller/AdminController.java:199-206 | a role typed in any case that upper-cases to a role's name filters by that role |
| AdminControllers.GetLogs | backend/src/main/java/com/example/learninganalysis/controller/AdminController.java:189-217 | after the admin check and the role filter, exactly the log entries that match every given filter, in repository order |
| AdminControllers.GetLogDetail | backend/src/main/java/com/example/learninganalysis/controller/AdminController.java:219-232 | after the admin check, the stored entry of that id, or the not-found refusal |
| AdminControllers.GetClassDetail | backend/src/main/java/com/example/learninganalysis/controller/AdminController.java:70-83 | after the admin check, the summary of a stored class, with its number of students; a missing class is refused |
| UserControllers.OwnerCheck | backend/src/main/java/com/example/learninganalysis/controller/UserController.java:38-45 | a caller passes iff the header's first part names a stored account whose id is the path's id; a missing account and a foreign id are refused differently |
| UserControllers.BrowserHeaderFindsNoCaller | backend/src/main/java/com/example/learninganalysis/controller/UserController.java:38-42 | the "Bearer " + token header the browser sends names no account (unless one is literally called "Bearer " + username), so the profile endpoints refuse it |
| UserControllers.ProfileAvatar | backend/src/main/java/com/example/learninganalysis/controller/UserController.java:52-69 | only a non-empty upload gives a new avatar path, the same one registration would give |
| UserControllers.ShownAvatar | backend/src/main/java/com/example/learninganalysis/controller/UserController.java:80 | the response shows the stored avatar, or the default picture when it is null |
| UserControllers.UpdateProfile | backend/src/main/java/com/example/learninganalysis/controller/UserController.java:30-88 | a refused caller or a taken email changes no account; otherwise exactly the caller's account gets the given name, email and new avatar, and the response shows it |
| UserControllers.PasswordRequestCheck | backend/src/main/java/com/example/learninganalysis/controller/UserController.java:99-113 | the caller check comes first; then both passwords must be given |
| UserControllers.ChangePassword | backend/src/main/java/com/example/learninganalysis/controller/UserController.java:93-129 | a refused request or a wrong old password changes nothing; otherwise only the caller's password changes, to the encoded new one |
| UserControllers.GetUserInfo | backend/src/main/java/com/example/learninganalysis/controller/UserController.java:134-160 | reading needs a stored caller and a stored target, and then returns the target as stored |
| UserControllers.AnyCallerReadsAnyAccount | backend/src/main/java/com/example/learninganalysis/controller/UserController.java:143-153 | any stored caller reads any other account: no ownership is checked |
| Scripts.Filter | frontend/src/components/teacher/LearningGoalManagement.tsx:100-109 | `Array.filter`: exactly the elements that pass the test, each taken from the input |
| Scripts.FilterAppend | frontend/src/components/teacher/LearningGoalManagement.tsx:100-109 | filtering a concatenation filters each part in turn, so the kept elements stay in their order |
| Scripts.FilterKeepsAll | frontend/src/components/teacher/LearningGoalManagement.tsx:100-109 | when every element passes, the filtered list is the list |
| Scripts.FilterKeepsNone | frontend/src/components/teacher/LearningGoalManagement.tsx:100-109 | when no element passes, the filtered list is empty |
| Scripts.FilterTwice | frontend/src/components/teacher/LearningGoalManagement.tsx:100-109 | a stronger test keeps a sub-list of what a weaker one keeps |
| Scripts.EmptySearchMatches | frontend/src/components/teacher/LearningGoalManagement.tsx:101 | an empty search text is included in every field |
| Scripts.LeadingDigits | frontend/src/components/teacher/StudentEvaluation.tsx:84 | the longest prefix made only of decimal digits |
| Scripts.ParseInt | frontend/src/components/teacher/StudentEvaluation.tsx:84 | `parseInt` is NaN iff no digit follows the optional sign; otherwise the value of the leading digits, negated after '-' |
| Scripts.ParseIntText | frontend/src/components/teacher/LearningTargetForm.tsx:233 | `parseInt` of a whole number's decimal text gives back that number |
| UrlQueries.SplitPair | frontend/src/components/teacher/LearningTargetForm.tsx:107 | a query pair splits at its first '=', so the name never holds one |
| UrlQueries.SplitPairOf | frontend/src/components/teacher/LearningTargetForm.tsx:107 | a name without '=' joined to a value by '=' splits back into that name and value |
| UrlQueries.PairTexts | frontend/src/components/admin/SystemLogs.tsx:104-119 | one "name=value" text per pair, in order |
| UrlQueries.FirstValueOfPairs | frontend/src/components/teacher/LearningTargetForm.tsx:107 | among distinct well-formed pairs, each name reads its own value |
| UrlQueries.FirstValueOfMissing | frontend/src/components/teacher/LearningTargetForm.tsx:107 | a name no pair carries reads nothing |
| UrlQueries.QueryText | frontend/src/components/admin/SystemLogs.tsx:120-122 | the serialised query is empty iff there are no pairs |
| UrlQueries.QueryTextReadsBack | frontend/src/components/admin/SystemLogs.tsx:104-122 | reading a serialised query back gives each pair's value under its name and nothing under other names |
| Browser.LocalStorage.constructor | frontend/src/components/Layout.tsx:28 | the storage starts with the given token, user and remembered user |
| Browser.LocalStorage.CurrentUser | frontend/src/components/Layout.tsx:28 | the pages see the stored user, or `{}` when none is stored |
| Browser.RoleOf | frontend/src/components/student/ActivityList/StudentActivityList.tsx:34-38 | the role as the pages compare it: the stored role if it is a non-empty text, else "" |
| AxiosTs.RequestConfig.constructor | frontend/src/utils/axios.ts:13-14 | a request starts with the headers and url it was configured with |
| AxiosTs.WithAuthorization | frontend/src/utils/axios.ts:28-32 | a stored non-empty token adds "Authorization: Bearer " + token; no token leaves the headers alone |
| AxiosTs.OutgoingHeaders | frontend/src/utils/axios.ts:18-32 | every request leaves with a JSON content type unless it already declares multipart, with the bearer header when a token is stored, and with every other header unchanged |
| AxiosTs.OnRequest | frontend/src/utils/axios.ts:13-39 | the request interceptor sets the config's headers to exactly `OutgoingHeaders` of the old ones and the stored token |
| AxiosTs.SavedToken | frontend/src/utils/axios.ts:45-48 | a token is saved iff the answer is the login url's and carries a non-empty token, and then it is that token |
| AxiosTs.OnResponse | frontend/src/utils/axios.ts:42-51 | the success interceptor stores the saved token, if any, and changes nothing else in the storage |
| AxiosTs.SavedTokenIsSentBack | frontend/src/utils/axios.ts:29-47 | the token saved from the login answer goes out on later requests as "Bearer " + token, the form the backend's filter reads |
| AxiosTs.ForgetsSession | frontend/src/utils/axios.ts:60-88 | the session is forgotten iff the answer is a 401 to a url outside the three auth urls, seen outside the login and register pages |
| AxiosTs.OnlyUnauthorizedForgets | frontend/src/utils/axios.ts:89-104 | a 400, 403, 404 or 500 never clears the session |
| AxiosTs.LoginFailureKeepsSession | frontend/src/utils/axios.ts:61-62 | no answer from the login url clears the session |
| AxiosTs.OnResponseError | frontend/src/utils/axios.ts:52-107 | the error is rejected unchanged; the token and the user are both removed, and a redirect scheduled, exactly when `ForgetsSession` holds |
| AxiosJs.OnRequest | frontend/src/utils/axios.js:14-22 | the request interceptor adds only the bearer header for a stored token |
| AxiosJs.BadRequestMessage | frontend/src/utils/axios.js:54-57 | a 400 shows the answer's non-empty message, or the default text |
| AxiosJs.BadRequestMessageNotEmpty | frontend/src/utils/axios.js:54-57 | a 400 always shows some text |
| AxiosJs.OtherStatusMessage | frontend/src/utils/axios.js:58-62 | other statuses show the answer's text, its JSON text for an object, or the default for a missing or empty answer |
| AxiosJs.FailureMessage | frontend/src/utils/axios.js:37-71 | one toast per failure: the fixed texts for 401, 403, 404, no answer and an unsent request; the answer's message for 400 and the others |
| AxiosJs.ForgetsToken | frontend/src/utils/axios.js:46-49 | the token is forgotten iff the answer is a 401 |
| AxiosJs.OnResponseError | frontend/src/utils/axios.js:34-74 | the error is rejected unchanged with `FailureMessage` shown; a 401 removes only the token and opens /login, anything else changes nothing |
| AxiosJs.VariantsDisagreeOnLogin401 | frontend/src/utils/axios.js:46-49 | on a 401 from the login url this client forgets the token where the TypeScript one keeps the session |
| AppRoutes.ProtectedRoute | frontend/src/App.tsx:24-36 | a page renders iff the stored user has a non-empty role and the required role is empty or equal to it; otherwise the user is sent to /login |
| AppRoutes.GuardPage | frontend/src/App.tsx:24-36 | the guard reads only the stored user, never the token |
| AppRoutes.Resolve | frontend/src/App.tsx:51-102 | the route that answers a path takes it (its own path, or its index or a declared child below it), and no path is left unanswered while some route takes it |
| AppRoutes.FirstRoute | frontend/src/App.tsx:51-102 | the first route in order that takes the path, or none when no route takes it |
| AppRoutes.FirstRouteAt | frontend/src/App.tsx:51-102 | the route at position k answers when it takes the path and no earlier one does |
| AppRoutes.RequiredRoleOf | frontend/src/App.tsx:51-102 | a path demands a role iff the route that answers it is guarded, and then that guard's role |
| AppRoutes.StudentSection | frontend/src/App.tsx:55-66 | a path under /student/ demands STUDENT iff it is the index or one of the five declared children (":id" one non-empty segment); any other path there has no route |
| AppRoutes.TeacherSection | frontend/src/App.tsx:69-87 | a path under /teacher/ demands TEACHER iff it is the index or one of the twelve declared children; any other path there has no route |
| AppRoutes.DashboardSection | frontend/src/App.tsx:90-100 | a path under /dashboard/ demands only a non-empty role iff it is the index or one of the four declared children; any other path there has no route |
| AppRoutes.OnlyOneRouteTakes | frontend/src/App.tsx:51-102 | no path is taken by two top-level routes, so the first route that takes a path is the only one |
| AppRoutes.NoRouteBeginsWith | frontend/src/App.tsx:51-102 | a path whose second character begins none of the route paths is answered by no route |
| AppRoutes.SectionAnswers | frontend/src/App.tsx:55-100 | a section answers its path plus "/" plus a rest exactly when its index or a declared child takes the rest, and otherwise no route does |
| AppRoutes.DashboardChild | frontend/src/App.tsx:55-100 | "dashboard", where a login lands, is a declared child of the student and teacher sections |
| AppRoutes.ActivitiesChild | frontend/src/App.tsx:55-100 | "activities", where the detail page goes back to, is a declared child of all three sections |
| AppRoutes.ActivityChild | frontend/src/App.tsx:55-100 | "activity/" followed by a non-empty id without '/' is taken by the `activity/:id` child of all three sections |
| AppRoutes.UndeclaredSingleSegment | frontend/src/App.tsx:55-87 | a single segment that no child names, such as "profile", is taken by no child of the student or teacher section |
| AppRoutes.RootRedirects | frontend/src/App.tsx:102 | "/" only redirects to /login |
| AppRoutes.NoAdminSection | frontend/src/App.tsx:51-102 | no route answers a path under /admin/ |
| Layouts.BasePath | frontend/src/components/Layout.tsx:46-59 | the base path is the section of the teacher, student or administrator role, and empty for any other role |
| Layouts.MenuItems | frontend/src/components/Layout.tsx:77-189 | five entries for a teacher, six for an administrator, four for a student or anyone else; every entry lies under the role's base path followed by "/" |
| Layouts.TeacherMenu | frontend/src/components/Layout.tsx:77-189 | the teacher's menu has five entries, none of them an administrator page |
| Layouts.LayoutRedirect | frontend/src/components/Layout.tsx:32-44 | a user without an id goes to /login; otherwise a path outside the role's base sends them to the role's dashboard, and only such a path |
| Layouts.EmptyBaseNeverRedirects | frontend/src/components/Layout.tsx:40-43 | a user whose role has no section is never moved |
| Layouts.OwnDashboardStays | frontend/src/components/Layout.tsx:40-43 | a user on their own dashboard stays there |
| Layouts.ProfileTarget | frontend/src/components/Layout.tsx:196-205 | the profile entry opens the student's or the teacher's profile page, and /profile for any other role |
| Layouts.ProfileTargetHasNoRoute | frontend/src/components/Layout.tsx:196-205 | none of the three profile targets is answered by a route of the table, so the profile entry renders nothing |
| Layouts.HandleLogout | frontend/src/components/Layout.tsx:61-75 | after a successful logout call the token and user are removed and the browser goes to /login; after a failure nothing changes and an error toast shows |
| LoginPage.LandingPath | frontend/src/components/auth/Login/Login.tsx:50-60 | a login opens the student's, the teacher's or the administrator's dashboard by the answer's role, and /dashboard for any other role |
| LoginPage.FailureToast | frontend/src/components/auth/Login/Login.tsx:62-63 | a failed login shows the server's non-empty message, or the page's default |
| LoginPage.HandleLogin | frontend/src/components/auth/Login/Login.tsx:30-67 | a failure changes no storage and shows its toast; an answer without a user does nothing; otherwise the token (when given) and the user are stored, the username remembered only on request, and the landing page opened |
| LoginPage.HandleMobileLogin | frontend/src/components/auth/Login/Login.tsx:69-91 | the same, except that no token is ever stored and the page opened is always /dashboard |
| LoginPage.StudentLandingIsAdmitted | frontend/src/components/auth/Login/Login.tsx:52-53 | a student's landing page demands STUDENT, and the guard lets the student in |
| LoginPage.TeacherLandingIsAdmitted | frontend/src/components/auth/Login/Login.tsx:54-55 | a teacher's landing page demands TEACHER, and the guard lets the teacher in |
| LoginPage.LandingStays | frontend/src/components/auth/Login/Login.tsx:50-60 | the layout leaves a user with an id on the page their login opened |
| LoginPage.AdminLandsNowhere | frontend/src/components/auth/Login/Login.tsx:56-57 | the administrator's landing page is answered by no route |
| RegisterPage.FieldErrors | frontend/src/components/auth/Register/Register.tsx:37-143 | each field is accepted iff it is filled and meets its rule (username 4 to 20 characters, password at least 6, the confirmation equal to the password, name at most 20, a valid email, a role); a blank field gets only its required message |
| RegisterPage.FieldErrorsFrame | frontend/src/components/auth/Register/Register.tsx:69-79 | a field's errors depend only on the fields its rules read |
| RegisterPage.ButtonsShown | frontend/src/components/auth/Register/Register.tsx:357-371 | Previous shows after the first step, Next before the last, Register only on the last, and never Next and Register together |
| RegisterPage.PickedEntry | frontend/src/components/auth/Register/Register.tsx:170 | the stored upload entry is the picked file, without an `originFileObj` |
| RegisterPage.IntendedEntry | frontend/src/components/auth/Register/Register.tsx:253-254 | the entry the submit expects carries the picked file as its `originFileObj` |
| RegisterPage.Appended | frontend/src/components/auth/Register/Register.tsx:240-244 | an undefined value is posted as the text "undefined" |
| RegisterPage.RegisterParts | frontend/src/components/auth/Register/Register.tsx:237-255 | the posted body is the five text fields in order, then the avatar part iff the first entry carries an `originFileObj` |
| RegisterPage.IncompleteGuardNeverFires | frontend/src/components/auth/Register/Register.tsx:266-277 | the body always has all five text fields, so the incomplete-form guard never fires |
| RegisterPage.TextOf | frontend/src/components/auth/Register/Register.tsx:240-244 | a text read from the body is one of its parts |
| RegisterPage.FileOf | frontend/src/components/auth/Register/Register.tsx:253-254 | a file read from the body is one of its parts, and none is read when no part of that name is a file |
| RegisterPage.TextOfAt | frontend/src/components/auth/Register/Register.tsx:240-244 | the first part of a name gives that name's text |
| RegisterPage.FileOfLast | frontend/src/components/auth/Register/Register.tsx:253-254 | a file part after only text parts is the file read under its name |
| RegisterPage.PostedFormIsComplete | frontend/src/components/auth/Register/Register.tsx:237-283 | the server reads each text field as the page's value or "undefined", so it never refuses the form as missing a field |
| RegisterPage.PickedAvatarIsDropped | frontend/src/components/auth/Register/Register.tsx:170 | with the entry the page stores, no avatar part is posted and the account gets the default avatar |
| RegisterPage.IntendedAvatarIsPosted | frontend/src/components/auth/Register/Register.tsx:253-254 | with the intended entry the picked file is posted, and a non-empty one is stored under the avatar directory |
| RegisterPage.Wizard.constructor | frontend/src/components/auth/Register/Register.tsx:187 | the wizard opens on the first step with no values and no file |
| RegisterPage.Wizard.Edit | frontend/src/components/auth/Register/Register.tsx:37-143 | typing changes only that field of the step on screen |
| RegisterPage.Wizard.Next | frontend/src/components/auth/Register/Register.tsx:187-198 | Next moves one step on iff the step's fields are valid, and changes no value |
| RegisterPage.Wizard.Prev | frontend/src/components/auth/Register/Register.tsx:200-202 | Previous moves one step back and changes no value |
| RegisterPage.Wizard.BeforeUpload | frontend/src/components/auth/Register/Register.tsx:159-172 | a file that is not a JPEG or PNG, or one of 2 MB or more, is refused with its own toast and leaves the list; an accepted one becomes the only entry |
| RegisterPage.Wizard.RemoveFile | frontend/src/components/auth/Register/Register.tsx:174 | removing empties the file list and changes nothing else |
| RegisterPage.Wizard.OnFinish | frontend/src/components/auth/Register/Register.tsx:214-255 | a body is posted iff the role (on the last step) and the mounted fields are valid, and then it is `RegisterParts` of the values; on the last step every text field is filled and valid |
| RegisterPage.Wizard.OnReply | frontend/src/components/auth/Register/Register.tsx:284-320 | success opens /login; a refusal naming username or email shows its message, clears that field and returns to its step; any other refusal only shows a toast |
| RegisterPage.RefusalToast | frontend/src/components/auth/Register/Register.tsx:310-319 | a refusal without a field shows its message, its non-empty text, or the default |
| StudentActivityList.ApiPrefix | frontend/src/components/student/ActivityList/StudentActivityList.tsx:41-52 | a student talks to /api/student, a teacher to /api/teacher, anyone else to /api |
| StudentActivityList.ListBasePath | frontend/src/components/student/ActivityList/StudentActivityList.tsx:55-65 | a student's links go under /student, a teacher's under /teacher, anyone else's under /dashboard |
| StudentActivityList.ActivityLinkIsGuarded | frontend/src/components/student/ActivityList/StudentActivityList.tsx:308 | every activity link falls under a guarded section: the role's own for a student or teacher, the open /dashboard one otherwise |
| StudentActivityList.ListEndpoint | frontend/src/components/student/ActivityList/StudentActivityList.tsx:104-116 | a set type filter asks for that type, otherwise the "my" tab asks for the user's activities and any other tab for all of them |
| StudentActivityList.AccessError | frontend/src/components/student/ActivityList/StudentActivityList.tsx:73-90 | the page fetches iff the user has an id and the role STUDENT or TEACHER; a missing id or role and any other role get their own errors |
| StudentActivityList.AdmittedUserHasRolePrefix | frontend/src/components/student/ActivityList/StudentActivityList.tsx:41-90 | a user the page lets in always talks to a role prefix and links into a role section |
| StudentActivityList.MarkRegistered | frontend/src/components/student/ActivityList/StudentActivityList.tsx:170-196 | after a registration exactly the activities with that id are marked REGISTERED and counted one more; the others are untouched |
| StudentActivityList.MarkCancelled | frontend/src/components/student/ActivityList/StudentActivityList.tsx:198-224 | after a cancellation exactly those activities are marked CANCELLED and counted one less, never below zero |
| StudentActivityList.Max0 | frontend/src/components/student/ActivityList/StudentActivityList.tsx:211 | `Math.max(0, n)`: the larger of n and 0 |
| StudentActivityList.CancelUndoesRegisterCount | frontend/src/components/student/ActivityList/StudentActivityList.tsx:170-224 | registering and then cancelling the same activity restores every count and leaves only that activity CANCELLED |
| StudentActivityList.FilteredActivities | frontend/src/components/student/ActivityList/StudentActivityList.tsx:239-245 | exactly the activities of the set type (if any), and on the "my" tab only those with a participation |
| StudentActivityList.AllTabShowsEverything | frontend/src/components/student/ActivityList/StudentActivityList.tsx:239-245 | with no type filter the "all" tab shows the whole list, in order |
| StudentActivityList.MyTabList | frontend/src/components/student/ActivityList/StudentActivityList.tsx:368 | the "my" tab shows exactly the listed activities with a participation |
| StudentActivityList.RegisterCaption | frontend/src/components/student/ActivityList/StudentActivityList.tsx:334-337 | the register button reads full when the activity is full, otherwise "register again" after a cancellation and "register" before |
| StudentActivityList.ShowRegister | frontend/src/components/student/ActivityList/StudentActivityList.tsx:326-338 | register shows only for an upcoming activity, never when registered or completed, and always after a cancellation |
| StudentActivityList.ShowCancel | frontend/src/components/student/ActivityList/StudentActivityList.tsx:339-343 | cancel shows only for an upcoming activity, never beside register |
| StudentActivityList.ShowComplete | frontend/src/components/student/ActivityList/StudentActivityList.tsx:347-351 | complete shows only for a registered participation, never beside register or cancel |
| StudentActivityList.RegisterSwapsButtons | frontend/src/components/student/ActivityList/StudentActivityList.tsx:326-351 | a card never offers register and cancel together, and registering turns the one into the other |
| StudentActivityList.CompleteNeverOffered | frontend/src/components/student/ActivityList/StudentActivityList.tsx:347 | the complete button waits for the status ENDED, which no backend activity status has, so it is never offered |
| StudentActivityList.FailureText | frontend/src/components/student/ActivityList/StudentActivityList.tsx:122 | a failure shows the server's non-empty message, or the default |
| StudentActivityList.ListPage.constructor | frontend/src/components/student/ActivityList/StudentActivityList.tsx:25-30 | the page starts on the "all" tab with no activities, no filter and no error |
| StudentActivityList.ListPage.Load | frontend/src/components/student/ActivityList/StudentActivityList.tsx:73-129 | a refused user gets the access error and nothing is fetched; otherwise the list endpoint is asked, and the list becomes the answer, or empty with the failure text |
| StudentActivityList.ListPage.HandleRegister | frontend/src/components/student/ActivityList/StudentActivityList.tsx:170-196 | the registration posts to the role's prefix; success marks the activity registered and fetches again, a failure changes nothing and shows its text |
| StudentActivityList.ListPage.HandleCancel | frontend/src/components/student/ActivityList/StudentActivityList.tsx:198-224 | the same for a cancellation, with the cancellation's marking and messages |
| StudentActivityList.ListPage.HandleComplete | frontend/src/components/student/ActivityList/StudentActivityList.tsx:226-237 | completing posts to the role's prefix and changes no card; only a success fetches again |
| ActivityDetailPage.DetailRegisterCaption | frontend/src/components/student/ActivityDetail.tsx:216-218 | the detail page's register button reads full exactly when the activity is full |
| ActivityDetailPage.CancelledDiffers | frontend/src/components/student/ActivityDetail.tsx:210-231 | on a cancelled participation the list offers to register again, the detail page offers nothing |
| ActivityDetailPage.OngoingCancelDiffers | frontend/src/components/student/ActivityDetail.tsx:210-231 | on an ongoing registered activity only the detail page and the "my" tab offer to cancel |
| ActivityDetailPage.DetailShowRegister | frontend/src/components/student/ActivityDetail.tsx:210-220 | the register button needs a student, and whenever it shows, the list's register button shows too; it never shows after a cancellation |
| ActivityDetailPage.DetailShowCancel | frontend/src/components/student/ActivityDetail.tsx:221-223 | cancel shows exactly when the "my" tab's does, for any registered activity, and never beside register |
| ActivityDetailPage.DetailShowComplete | frontend/src/components/student/ActivityDetail.tsx:221-228 | complete shows only within the cancel group, and exactly when the list's complete button shows |
| ActivityDetailPage.BackTarget | frontend/src/components/student/ActivityDetail.tsx:231 | the back button opens the activity list of the role's section |
| ActivityDetailPage.StudentBackIsGuarded | frontend/src/components/student/ActivityDetail.tsx:231 | a student's back button leads into the student section, whose guard admits them |
| ActivityDetailPage.DetailPage.constructor | frontend/src/components/student/ActivityDetail.tsx:27-28 | the page starts with no activity and not loading |
| ActivityDetailPage.DetailPage.Act | frontend/src/components/student/ActivityDetail.tsx:80-126 | an action posts under the role's prefix; a failure shows its toast and changes nothing; a success fetches the activity again and shows it, with a second toast when that fetch fails |
| TeacherClassManager.FilteredStudents | frontend/src/components/teacher/ClassManager.tsx:92-95 | exactly the students whose name or username contains the search, ignoring case |
| TeacherClassManager.EmptySearchKeepsStudents | frontend/src/components/teacher/ClassManager.tsx:92-95 | an empty search keeps the whole table, in order |
| TeacherClassManager.IdTexts | frontend/src/components/teacher/ClassManager.tsx:130 | one decimal text per selected id, in order |
| TeacherClassManager.AssignTargetUrl | frontend/src/components/teacher/ClassManager.tsx:130 | the target form's path followed by the selection's query |
| TeacherClassManager.ModalRequest | frontend/src/components/teacher/ClassManager.tsx:153-161 | the dialog updates the class being edited, by its id, and creates a class otherwise |
| TeacherClassManager.EditNeverCreates | frontend/src/components/teacher/ClassManager.tsx:153-161 | an edited class is never sent to the creation endpoint, and a new one never updates a class |
| TeacherClassManager.ClassManagerPage.constructor | frontend/src/components/teacher/ClassManager.tsx:42-47 | the page opens on tab "1" with no selection, no dialog and no class being edited |
| TeacherClassManager.ClassManagerPage.SelectRows | frontend/src/components/teacher/ClassManager.tsx:330-332 | selecting rows sets the selection and nothing else |
| TeacherClassManager.ClassManagerPage.HandleTabChange | frontend/src/components/teacher/ClassManager.tsx:97-100 | a tab change sets the tab and always clears the selection |
| TeacherClassManager.ClassManagerPage.HandleBatchAction | frontend/src/components/teacher/ClassManager.tsx:123-142 | without a selection only a warning; assignTarget opens the target form with the selected ids; removeFromClass asks for confirmation |
| TeacherClassManager.ClassManagerPage.ConfirmRemove | frontend/src/components/teacher/ClassManager.tsx:135-139 | the confirmed removal sends nothing, shows success and clears the selection |
| TeacherClassManager.ClassManagerPage.HandleCreateClass | frontend/src/components/teacher/ClassManager.tsx:106-111 | the creation dialog opens empty, with no class being edited |
| TeacherClassManager.ClassManagerPage.HandleEditClass | frontend/src/components/teacher/ClassManager.tsx:113-121 | the edit dialog opens on the record, holding its name and description |
| TeacherClassManager.ClassManagerPage.EditName | frontend/src/components/teacher/ClassManager.tsx:412-419 | typing a class name changes that form field and nothing else |
| TeacherClassManager.ClassManagerPage.EditDescription | frontend/src/components/teacher/ClassManager.tsx:420-425 | typing a description changes that form field and nothing else |
| TeacherClassManager.ClassManagerPage.HandleModalCancel | frontend/src/components/teacher/ClassManager.tsx:144-146 | cancelling closes the dialog and changes nothing else |
| TeacherClassManager.ClassManagerPage.HandleModalOk | frontend/src/components/teacher/ClassManager.tsx:148-172 | valid fields send the dialog's request; its success closes the dialog, refetches and shows the request's message; otherwise the dialog stays and a failure shows |
| LearningTargetForm.KeysFromQuery | frontend/src/components/teacher/LearningTargetForm.tsx:105-113 | a non-empty `students` parameter, split on ',', becomes the chosen keys; otherwise they stay |
| LearningTargetForm.StudentIds | frontend/src/components/teacher/LearningTargetForm.tsx:233 | one parsed id per key, in order |
| LearningTargetForm.JoinAvoids | frontend/src/components/teacher/LearningTargetForm.tsx:110-111 | joining parts that avoid a character gives a text that avoids it |
| LearningTargetForm.DigitsAvoid | frontend/src/components/teacher/LearningTargetForm.tsx:110-111 | a number's decimal text holds no character that is not a digit |
| LearningTargetForm.IdTextsAvoid | frontend/src/components/teacher/LearningTargetForm.tsx:107-111 | the ids' texts hold neither ',' nor '&' |
| LearningTargetForm.AssignQueryParam | frontend/src/components/teacher/LearningTargetForm.tsx:107-108 | the class page's query hands back the joined ids as its `students` parameter |
| LearningTargetForm.JoinedIdsSplit | frontend/src/components/teacher/LearningTargetForm.tsx:110-111 | the joined ids, split on ',', give back the ids' texts, and the joined text is not empty |
| LearningTargetForm.SelectionRoundTrip | frontend/src/components/teacher/LearningTargetForm.tsx:105-119 | the selection the class page sends arrives intact: the chosen keys are the selected ids' texts and the submitted ids are the selected ids |
| LearningTargetForm.Format | frontend/src/components/teacher/LearningTargetForm.tsx:128-134 | a fetched student's key is its id's text, and a missing class name shows as unassigned |
| LearningTargetForm.FormattedKeyParses | frontend/src/components/teacher/LearningTargetForm.tsx:128-134 | a student's key parses back to that student's id |
| LearningTargetForm.TargetTypeKeys | frontend/src/components/teacher/LearningTargetForm.tsx:189-194 | choosing "class" clears the keys; any other type keeps them |
| LearningTargetForm.FindClassName | frontend/src/components/teacher/LearningTargetForm.tsx:203 | the name of the first listed class with that id; nothing when no class has it |
| LearningTargetForm.Keys | frontend/src/components/teacher/LearningTargetForm.tsx:207 | the students' keys, in order |
| LearningTargetForm.ClassKeys | frontend/src/components/teacher/LearningTargetForm.tsx:196-211 | no selected class clears the keys; otherwise exactly the keys of the students whose class name is that of a selected class |
| LearningTargetForm.ToggleActivity | frontend/src/components/teacher/LearningTargetForm.tsx:213-219 | a selected activity is dropped with nothing added, every other element kept as often as before and in order; an unselected one is appended |
| LearningTargetForm.ToggleTwice | frontend/src/components/teacher/LearningTargetForm.tsx:213-219 | toggling twice gives back the same set of activities, and the same list when it was unselected |
| LearningTargetForm.FilterDrops | frontend/src/components/teacher/LearningTargetForm.tsx:215 | dropping an id from the list plus that id gives the list back |
| LearningTargetForm.TargetSubmission | frontend/src/components/teacher/LearningTargetForm.tsx:221-235 | no chosen student only warns; otherwise the form's type, classes, title and description, the deadline's `format` text iff one was picked, one parsed id per key, and the selected activities |
| LearningTargetForm.TargetFormPage.constructor | frontend/src/components/teacher/LearningTargetForm.tsx:99-103 | the form opens with no keys, the "student" type and no activity |
| LearningTargetForm.TargetFormPage.ReadQuery | frontend/src/components/teacher/LearningTargetForm.tsx:105-113 | the keys become `KeysFromQuery` of the query, and nothing else changes |
| LearningTargetForm.TargetFormPage.HandleTargetTypeChange | frontend/src/components/teacher/LearningTargetForm.tsx:189-194 | the type is set and the keys follow `TargetTypeKeys` |
| LearningTargetForm.TargetFormPage.HandleClassChange | frontend/src/components/teacher/LearningTargetForm.tsx:196-211 | the keys become those of the selected classes |
| LearningTargetForm.TargetFormPage.HandleActivitySelect | frontend/src/components/teacher/LearningTargetForm.tsx:213-219 | the activity selection is toggled, and nothing else changes |
| LearningTargetForm.TargetFormPage.OnFinish | frontend/src/components/teacher/LearningTargetForm.tsx:221-248 | no key only warns; otherwise the submission is posted, and success opens the target list while a failure shows its toast |
| ActivityManagement.FilteredActivities | frontend/src/components/teacher/ActivityManagement.tsx:108-117 | exactly the activities whose title contains the search, ignoring case, and whose status matches the tab |
| ActivityManagement.AllTabEmptySearchKeepsAll | frontend/src/components/teacher/ActivityManagement.tsx:108-117 | the "all" tab with an empty search shows the whole list, in order |
| ActivityManagement.StatusTabsAreDisjoint | frontend/src/components/teacher/ActivityManagement.tsx:110-115 | each status tab admits exactly the status it names, so no activity is under two of them |
| ActivityManagement.UnknownTabShowsNothing | frontend/src/components/teacher/ActivityManagement.tsx:110-115 | a tab other than the four shows nothing |
| ActivityManagement.StatusBadge | frontend/src/components/teacher/ActivityManagement.tsx:261-277 | only the lower-case statuses have badge text; every other value gets the default badge with none |
| ActivityManagement.BackendStatusHasNoBadgeText | frontend/src/components/teacher/ActivityManagement.tsx:261-277 | every status the backend sends is upper-case, so its badge is blank |
| ActivityManagement.TypeTag | frontend/src/components/teacher/ActivityManagement.tsx:223-239 | the three known types get their label and colour; any other is shown as it is, in blue |
| ActivityManagement.DeleteOutcome | frontend/src/components/teacher/ActivityManagement.tsx:131-151 | a confirmed deletion shows success and refreshes, a reply that does not confirm it does nothing, an error shows failure and still refreshes |
| ActivityManagement.OnlyUnconfirmedDeleteKeepsList | frontend/src/components/teacher/ActivityManagement.tsx:131-151 | the list is refreshed after every deletion except one the reply does not confirm |
| ActivityManagement.Attachments | frontend/src/components/teacher/ActivityManagement.tsx:188-192 | the posted attachments are exactly the files of the list that carry an `originFileObj` |
| ActivityManagement.ActivityData | frontend/src/components/teacher/ActivityManagement.tsx:169-180 | a form without a complete time range posts nothing; otherwise the values with formatted startTime and endTime, without timeRange and attachments, every other value unchanged |
| ActivityManagement.ManagementPage.constructor | frontend/src/components/teacher/ActivityManagement.tsx:39-45 | the page opens on the "all" tab with no activities, no search, no dialog and no file |
| ActivityManagement.ManagementPage.Rows | frontend/src/components/teacher/ActivityManagement.tsx:108-117 | every row shown is a loaded activity whose status matches the tab |
| ActivityManagement.ManagementPage.Fetch | frontend/src/components/teacher/ActivityManagement.tsx:52-102 | the list becomes the reply's, empty for an empty reply, and the demonstration list on an error |
| ActivityManagement.ManagementPage.HandleSearch | frontend/src/components/teacher/ActivityManagement.tsx:104-106 | the search text is set and nothing else changes |
| ActivityManagement.ManagementPage.SetTab | frontend/src/components/teacher/ActivityManagement.tsx:322 | the tab is set and nothing else changes |
| ActivityManagement.ManagementPage.ShowCreateModal | frontend/src/components/teacher/ActivityManagement.tsx:153-157 | the dialog opens with an empty upload list |
| ActivityManagement.ManagementPage.SetFileList | frontend/src/components/teacher/ActivityManagement.tsx:443 | the upload list becomes the given files |
| ActivityManagement.ManagementPage.OnFinish | frontend/src/components/teacher/ActivityManagement.tsx:167-208 | with a time range, one multipart request: the activity part first, then one part per attachment in order; success closes the dialog and refetches, any failure shows the failure toast |
| ActivityManagement.DemoBadgesAreBlank | frontend/src/components/teacher/ActivityManagement.tsx:60-102 | each demonstration activity carries an upper-case status, so none of their badges has text |
| LearningGoalManagement.TabStatus | frontend/src/components/teacher/LearningGoalManagement.tsx:102-106 | each status tab stands for one goal status; "all" and unknown tabs for none |
| LearningGoalManagement.MatchesTabByStatus | frontend/src/components/teacher/LearningGoalManagement.tsx:102-106 | a goal passes the tab test iff the tab is "all" or stands for the goal's status |
| LearningGoalManagement.FilteredGoals | frontend/src/components/teacher/LearningGoalManagement.tsx:100-109 | exactly the goals whose title contains the search, ignoring case, and whose status matches the tab |
| LearningGoalManagement.AllTabEmptySearchKeepsAll | frontend/src/components/teacher/LearningGoalManagement.tsx:100-109 | the "all" tab with an empty search shows every goal, in order |
| LearningGoalManagement.StatusTag | frontend/src/components/teacher/LearningGoalManagement.tsx:175-191 | the three goal statuses get their label and colour; any other is shown as it is |
| LearningGoalManagement.TabGoalsAreLabelled | frontend/src/components/teacher/LearningGoalManagement.tsx:100-191 | every goal a status tab shows gets its label, never its raw status |
| LearningGoalManagement.ProgressText | frontend/src/components/teacher/LearningGoalManagement.tsx:197 | the progress is shown as a number followed by '%' |
| LearningGoalManagement.DigitsThenStop | frontend/src/components/teacher/LearningGoalManagement.tsx:197 | the leading digits of digits followed by a non-digit are those digits |
| LearningGoalManagement.ParseDigitsThenStop | frontend/src/components/teacher/LearningGoalManagement.tsx:197 | `parseInt` of digits followed by a stop reads the digits |
| LearningGoalManagement.ParseNegativeThenStop | frontend/src/components/teacher/LearningGoalManagement.tsx:197 | `parseInt` of a minus, digits and a stop reads the negated digits |
| LearningGoalManagement.ProgressReadsBack | frontend/src/components/teacher/LearningGoalManagement.tsx:197 | the progress text reads back as the progress, negative ones included |
| LearningGoalManagement.AssignedText | frontend/src/components/teacher/LearningGoalManagement.tsx:203 | the assigned count is shown as given, and 0 when it is missing |
| StudentEvaluation.FilteredEvaluations | frontend/src/components/teacher/StudentEvaluation.tsx:206-209 | exactly the evaluations whose title or content contains the search, ignoring case |
| StudentEvaluation.EmptySearchKeepsEvaluations | frontend/src/components/teacher/StudentEvaluation.tsx:206-209 | an empty search keeps every evaluation, in order |
| StudentEvaluation.FilteredStudents | frontend/src/components/teacher/StudentEvaluation.tsx:211-215 | exactly the students whose name, student number or class name contains the search |
| StudentEvaluation.ClasslessStudentMatch | frontend/src/components/teacher/StudentEvaluation.tsx:211-215 | a student without a class name is found only by name or student number |
| StudentEvaluation.EmptySearchKeepsStudents | frontend/src/components/teacher/StudentEvaluation.tsx:211-215 | an empty search keeps every student, in order |
| StudentEvaluation.TypeLabel | frontend/src/components/teacher/StudentEvaluation.tsx:308-324 | the three evaluation types get their label and colour; any other is shown as it is, in blue |
| StudentEvaluation.ParticipationLabel | frontend/src/components/teacher/StudentEvaluation.tsx:404-420 | a participation has label text iff its status is one of the three; each gets its own label |
| StudentEvaluation.BackendParticipationIsLabelled | frontend/src/components/teacher/StudentEvaluation.tsx:404-420 | every participation status the backend stores has a label, and different statuses have different labels |
| AdminStudentManager.FilteredStudents | frontend/src/components/admin/StudentManager.tsx:108-113 | exactly the students that match the search |
| AdminStudentManager.EmptySearchKeepsStudents | frontend/src/components/admin/StudentManager.tsx:108-113 | an empty search keeps every student, in order |
| AdminStudentManager.FilteringKeepsOrder | frontend/src/components/admin/StudentManager.tsx:108-113 | filtering two halves of a table and joining them is filtering the table |
| AdminStudentManager.StatusTag | frontend/src/components/admin/StudentManager.tsx:193-204 | the three student statuses get their tag; any other reads as unknown |
| AdminStudentManager.StatusTagsDiffer | frontend/src/components/admin/StudentManager.tsx:193-204 | the three statuses have three different tags, none of them the unknown one |
| AdminStudentManager.CreateStatus | frontend/src/components/admin/StudentManager.tsx:409-412 | a created student is ACTIVE unless another status is picked |
| AdminStudentManager.DefaultStatusIsStudying | frontend/src/components/admin/StudentManager.tsx:193-204 | a student created without a status shows as studying |
| AdminTeacherManager.FilteredTeachers | frontend/src/components/admin/TeacherManager.tsx:86-90 | exactly the teachers that match the search |
| AdminTeacherManager.EmptySearchKeepsTeachers | frontend/src/components/admin/TeacherManager.tsx:86-90 | an empty search keeps every teacher, in order |
| AdminTeacherManager.TableStatus | frontend/src/components/admin/TeacherManager.tsx:226-230 | the table shows an ACTIVE teacher as in post and any other as having left the school |
| AdminTeacherManager.DetailStatus | frontend/src/components/admin/TeacherManager.tsx:381-383 | the detail shows an ACTIVE teacher as in post and any other as resigned |
| AdminTeacherManager.ViewsDisagreeOnInactive | frontend/src/components/admin/TeacherManager.tsx:226-383 | the two views use the same colours, and show the same tag iff the teacher is ACTIVE |
| AdminClassManager.FilteredClasses | frontend/src/components/admin/ClassManager.tsx:169-172 | exactly the classes whose name, or whose teacher's name, contains the search |
| AdminClassManager.EmptySearchKeepsClasses | frontend/src/components/admin/ClassManager.tsx:169-172 | an empty search keeps every class, in order |
| AdminClassManager.TeacherlessClassMatchesByName | frontend/src/components/admin/ClassManager.tsx:169-172 | a class without a teacher is found by its name alone |
| AdminClassManager.BodyEntry | backend/src/main/java/com/example/learninganalysis/controller/AdminController.java:94-96 | the controller reads a missing key as absent, a null as null, a text as itself and a number as its decimal text |
| AdminClassManager.CreatePayload | frontend/src/components/admin/ClassManager.tsx:174-193 | the creation body is the dialog's values plus `className` equal to the name, when a name was entered |
| AdminClassManager.CreatePayloadReachesController | frontend/src/components/admin/ClassManager.tsx:174-193 | the controller reads the dialog's name, description and teacher id as entered |
| AdminClassManager.AssignPayload | frontend/src/components/admin/ClassManager.tsx:195-215 | the assignment body is the dialog's values with the class's current name and description |
| AdminClassManager.AssignKeepsClass | frontend/src/components/admin/ClassManager.tsx:195-215 | the update it sends keeps the class's name and description and names the chosen teacher |
| AdminClassManager.AssignSeed | frontend/src/components/admin/ClassManager.tsx:156-163 | the assign dialog starts on the class's teacher, unless the class has none or its id is 0 |
| SystemLogs.FindLabel | frontend/src/components/admin/SystemLogs.tsx:66-69 | the label found is that of an option with the value, and none is found iff no option has it |
| SystemLogs.OperationTypeLabel | frontend/src/components/admin/SystemLogs.tsx:66-69 | an operation type is shown by a listed label for it, or as itself when it is not listed |
| SystemLogs.LabelsAreNotValues | frontend/src/components/admin/SystemLogs.tsx:44-58 | no option's label is its value |
| SystemLogs.ListedTypesShowLabels | frontend/src/components/admin/SystemLogs.tsx:44-69 | every listed operation type is shown by a label of the list, never by its raw value |
| SystemLogs.UnlistedBackendTypes | frontend/src/components/admin/SystemLogs.tsx:44-69 | the backend's logout, participation and cancellation types are not listed and show as their raw names |
| SystemLogs.OperationTypeColor | frontend/src/components/admin/SystemLogs.tsx:71-77 | CREATE, then UPDATE, then DELETE in the type decide the colour; any other type, LOGIN included, gets the default |
| SystemLogs.RoleColor | frontend/src/components/admin/SystemLogs.tsx:79-86 | each of the three roles has its own colour; any other gets the default |
| SystemLogs.OfferedRolesAreColoured | frontend/src/components/admin/SystemLogs.tsx:60-86 | every offered role has a colour, and different roles have different colours |
| SystemLogs.OptionalPair | frontend/src/components/admin/SystemLogs.tsx:107-113 | a filter contributes one parameter iff it is set, with its encoded value |
| SystemLogs.TimePairs | frontend/src/components/admin/SystemLogs.tsx:115-118 | a range with two ends contributes startTime and endTime, in that order; any other none |
| SystemLogs.HoldsConcat | frontend/src/components/admin/SystemLogs.tsx:104-119 | a name is among two joined parameter lists iff it is among one of them |
| SystemLogs.PartsAt | frontend/src/components/admin/SystemLogs.tsx:104-119 | the parameters are the operation type's, then the role's, then the time range's |
| SystemLogs.PartsOrdered | frontend/src/components/admin/SystemLogs.tsx:104-119 | the parameters come in the order the filters are appended |
| SystemLogs.PartsPresent | frontend/src/components/admin/SystemLogs.tsx:104-119 | a parameter is there iff its filter is set |
| SystemLogs.PartsEncoded | frontend/src/components/admin/SystemLogs.tsx:104-119 | each parameter carries its filter's encoded value |
| SystemLogs.QueryParams | frontend/src/components/admin/SystemLogs.tsx:104-119 | the appended parameters are those of the set filters, in order, with their encoded values |
| SystemLogs.ParamsAreWellFormed | frontend/src/components/admin/SystemLogs.tsx:104-119 | no parameter name appears twice, so the query reads back |
| SystemLogs.LogsUrl | frontend/src/components/admin/SystemLogs.tsx:102-122 | no parameter requests the bare path; otherwise the path, '?', and the serialised query |
| SystemLogs.FilterReachesQuery | frontend/src/components/admin/SystemLogs.tsx:102-122 | a set filter reaches the query under its name with its value, and an unset role is not in it |
| SystemLogs.SystemLogsPage.constructor | frontend/src/components/admin/SystemLogs.tsx:89-90 | the page starts with no rows and not loading |
| SystemLogs.SystemLogsPage.FetchLogs | frontend/src/components/admin/SystemLogs.tsx:99-134 | the URL asked is `LogsUrl` of the filters' parameters (the bare path without filters); a reply replaces the rows, a failure keeps them and shows a toast |
| SystemLogs.SystemLogsPage.HandleReset | frontend/src/components/admin/SystemLogs.tsx:145-148 | reset asks for the bare path, and a reply replaces the rows |
| SystemLogs.EmptyFormIsReset | frontend/src/components/admin/SystemLogs.tsx:104-148 | an empty filter form asks for the same URL as the reset button |

## Left out

- File storage: writing an uploaded avatar (`mkdirs`, `transferTo`) is not modelled; the model records only the stored file name.
- Randomness, hashing and time: the UUID, the BCrypt encoder and the clock are parameters, so their actual values are not modelled.
- URL percent-encoding, `toISOString`, `moment(...).format` and `JSON.stringify` are abstract functions, because only their use matters here.
- Floating point: progress values are integers, the Register page's 2 MB test is the integer comparison size < 2097152, and JavaScript's UTF-16 string lengths are counted in characters.
- Asynchrony: `setTimeout` redirects and overlapping requests are not modelled, because every reply is handled in the same step as its request.
- RegisterPage.Wizard Next, Prev and OnReply require the button they model to be visible, because the page only reaches them through those buttons.
- Persistence: JPA, `@Transactional` rollback, the Spring wiring, CORS and the mock data are not modelled; repositories are maps and sequences in the services.
- ClassService read-only queries (`getTeacherClasses`, `getStudentClasses`, `getClassesNotJoinedByStudent`, `getPendingApplicationsForTeacher`, `getStudentApplications`, `getClassById`): they only copy rows into maps and are not modelled.
- AdminService read-only queries (`getAllClasses`, `getAllStudents`, `getSimpleClasses`): they only project rows and are not modelled.
- TeacherService dashboard and mock-data methods: they return fixed or projected data and are not modelled.
- StudentService `getGoals`, `getStats`, `getLearningPaths`, `submitActivity` and `submitFeedback`: they return mock data or only echo their input, so they are not modelled.
- Views that only lay out data and make no decision (the profile centres, the dashboards, AdminDashboard, LearningPath, Feedback, ActivityForm, DefaultAvatar, teacher/index.ts) are not modelled.
- The key order of a HashMap reply and the formatting of dates are not modelled.
- `equalsIgnoreCase` is modelled on ASCII letters only (JavaStrings.EqualsIgnoreCase folds with `AsciiLower`, and Logs.GetClientIpAddress uses it for "unknown"); Java's Unicode case folding is lost, so for instance U+212A KELVIN SIGN is not equal to "k" here.
- Route matching: React Router's case-insensitive matching, its tolerance of a trailing '/' after a child path, and URL decoding of segments are not modelled; a path is matched as written, with "" after the section's '/' taken by the index.
- SystemLogs.ListedTypesShowLabels: states that a listed type is shown by some label of the list, not that it is the option's own label; the pairing of each option with its label is not stated.
- Participations.Created: does not promise createdAt == updatedAt, because `onCreate` reads the clock once for each field.
- Participations.ActivityParticipation.OnCreate: does not promise createdAt == updatedAt, for the same reason.
- TeacherRules.NewActivity: reads maxParticipants as an `Entry<int>`, so `((Number) x).intValue()` is not modelled on a JSON value that is a fraction (truncated), lies outside 32 bits (wrapped) or is not a number (ClassCastException).
- TeacherRules.ActivityPatched: reads maxParticipants as an `Entry<int>`, with the same gap for fractions, values outside 32 bits and non-numbers.
- TeacherRules.GoalPatched: reads progress as an `Entry<int>`, with the same gap for fractions, values outside 32 bits and non-numbers.
- JavaStrings.ParseLong: accepts ASCII digits only, while `Long.valueOf` also accepts the decimal digits of other Unicode scripts (for instance U+0661 ARABIC-INDIC DIGIT ONE); TeacherRules.StudentIdOf inherits this.
- AuthController `logout`: it reads no state and answers a fixed success message whatever header is sent, so it is not modelled.
- Scripts.ParseInt: models `parseInt` only on the texts the frontend builds (an optional sign and decimal digits); leading white space, hexadecimal prefixes and other radices are not modelled.
- AuthControllers.Login: takes the username and password as texts, so a login body without either (AuthController.java:148-151) is not modelled: a null username finds no account, and a null password makes the encoder's `matches` throw, each answered as a bad request.
- ClassControllers.ProcessBatchApplications: takes the id list as numbers, so the unchecked `(List<Integer>)` cast and a null element (ClassController.java:544-549) are not modelled: a non-integer entry gives a ClassCastException and a null one a NullPointerException, each answered as a bad request before any id is processed.
- AdminServices.ClassDetail: does not model the NullPointerException that `getCreatedAt().format` (AdminService.java:100) throws for a class without a creation time, because creation times are not part of the class model.
- TeacherController: its endpoints only forward to TeacherService, so they are not modelled; note that `deleteActivity` (TeacherController.java:174-182) answers a mock "deleted" reply even when the service refuses, for instance with `StillReferenced`.
- TeacherServices.TeacherService.DeleteActivity and DeleteClass: the rows that still name the activity or class are passed in as an id set, because activity_participations and class_applications are kept by StudentService and ClassService; the model does not tie that set to those services' tables.

## Findings

| source | as written | input that shows it | evidently intended | confidence | as-written member | corrected member |
|---|---|---|---|---|---|---|
| backend/src/main/java/com/example/learninganalysis/service/StudentService.java:150-165 | registering again after a cancellation inserts a second participation row for the same user and activity | register, cancel, register, cancel for one user and one activity: the last cancel's `findByUserAndActivity` finds two rows | reuse the existing CANCELLED or COMPLETED row, so each pair keeps one row | not executed; high | StudentServiceRuns.ReRegisterThenCancelFails | StudentServices.StudentService.RegisterActivityReusingRow, StudentServiceRuns.ReRegisterThenCancelSucceeds |
| backend/src/main/java/com/example/learninganalysis/controller/UserController.java:38-39 | the username is segment 0 of the raw Authorization header, which still starts with "Bearer " | the header "Bearer alice.STUDENT.<uuid>" gives the username "Bearer alice" | strip the "Bearer " prefix first, as the JWT filter and ClassController do | not executed; high | Tokens.HeaderUsernameKeepsBearer | Tokens.BearerUsernameReadsLogin |
| backend/src/main/java/com/example/learninganalysis/aspect/LoggingAspect.java:49 | the login audit only fires when the first argument is a Map, but `login` takes a User | any login request, right or wrong | one USER_LOGIN entry per successful login | not executed; high | Auditing.LoginIsNeverLogged | Auditing.LogSuccessfulLogin |
| frontend/src/components/auth/Register/Register.tsx:170 | the upload list stores the picked file itself, while the submit reads its `originFileObj` | pick a 1 KB JPEG as avatar and register: no avatar part is posted | the submit posts the picked file | not executed; medium | RegisterPage.PickedAvatarIsDropped | RegisterPage.IntendedAvatarIsPosted |

UserControllers keeps modelling the header reading as written (UserControllers.BrowserHeaderFindsNoCaller);
the corrected reading is the one Tokens.BearerUsername gives, which the JWT filter and ClassController already use.
