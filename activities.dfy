/**
 * Campus activities (Activity.java): the row, its nested ActivityStatus and
 * ActivityType enums, and the map the services send to the frontend.
 */
module Activities {
  import opened Wrappers
  import opened Users

  type ActivityId = int

  /** A moment as read from `LocalDateTime.now()` or parsed from text. */
  type Instant = int

  datatype ActivityStatus = UPCOMING | ONGOING | COMPLETED | CANCELLED

  datatype ActivityType =
    LECTURE | WORKSHOP | SEMINAR | COMPETITION | CLUB | VOLUNTEER | SPORTS | CULTURAL | OTHER

  function StatusName(s: ActivityStatus): string {
    match s
    case UPCOMING => "UPCOMING"
    case ONGOING => "ONGOING"
    case COMPLETED => "COMPLETED"
    case CANCELLED => "CANCELLED"
  }

  function TypeName(t: ActivityType): string {
    match t
    case LECTURE => "LECTURE"
    case WORKSHOP => "WORKSHOP"
    case SEMINAR => "SEMINAR"
    case COMPETITION => "COMPETITION"
    case CLUB => "CLUB"
    case VOLUNTEER => "VOLUNTEER"
    case SPORTS => "SPORTS"
    case CULTURAL => "CULTURAL"
    case OTHER => "OTHER"
  }

  /** `Activity.ActivityType.valueOf(s)`: exact constant names only. */
  function TypeValueOf(s: string): (r: Option<ActivityType>)
    ensures r.Some? ==> TypeName(r.value) == s
    ensures r.None? ==> forall t: ActivityType :: TypeName(t) != s
  {
    if s == "LECTURE" then Some(LECTURE)
    else if s == "WORKSHOP" then Some(WORKSHOP)
    else if s == "SEMINAR" then Some(SEMINAR)
    else if s == "COMPETITION" then Some(COMPETITION)
    else if s == "CLUB" then Some(CLUB)
    else if s == "VOLUNTEER" then Some(VOLUNTEER)
    else if s == "SPORTS" then Some(SPORTS)
    else if s == "CULTURAL" then Some(CULTURAL)
    else if s == "OTHER" then Some(OTHER)
    else None
  }

  lemma TypeValueOfName(t: ActivityType)
    ensures TypeValueOf(TypeName(t)) == Some(t)
  {
  }

  /** One row of the activities table. */
  datatype Activity = Activity(
    id: ActivityId,
    title: string,
    description: Option<string>,
    location: string,
    organizer: string,
    maxParticipants: int,
    currentParticipants: int,
    status: ActivityStatus,
    activityType: ActivityType,
    startTime: Instant,
    endTime: Instant,
    creator: Option<UserId>)

  /**
   * The map `convertActivityToMap` builds, plus the optional
   * `participationStatus` entry the student endpoints add. Times stay
   * instants: their text formatting is not modelled.
   */
  datatype ActivityView = ActivityView(
    id: ActivityId,
    title: string,
    activityType: string,
    description: Option<string>,
    location: string,
    startTime: Instant,
    endTime: Instant,
    status: string,
    maxParticipants: int,
    currentParticipants: int,
    organizer: string,
    creatorName: Option<string>,
    participationStatus: Option<string>)

  /**
   * `convertActivityToMap`: every column is copied, enums by name, and
   * `creatorName` is present exactly when the creator is set and known.
   */
  function ToView(a: Activity, users: map<UserId, User>): (v: ActivityView)
    ensures v.id == a.id && v.currentParticipants == a.currentParticipants
    ensures v.maxParticipants == a.maxParticipants
    ensures v.title == a.title && v.description == a.description
    ensures v.location == a.location && v.organizer == a.organizer
    ensures v.startTime == a.startTime && v.endTime == a.endTime
    ensures v.status == StatusName(a.status) && v.activityType == TypeName(a.activityType)
    ensures v.creatorName.Some? <==> a.creator.Some? && a.creator.value in users
    ensures v.creatorName.Some? ==> v.creatorName.value == users[a.creator.value].username
    ensures v.participationStatus.None?
  {
    ActivityView(a.id, a.title, TypeName(a.activityType), a.description, a.location,
      a.startTime, a.endTime, StatusName(a.status), a.maxParticipants,
      a.currentParticipants, a.organizer,
      if a.creator.Some? && a.creator.value in users then Some(users[a.creator.value].username) else None,
      None)
  }
}
