/**
 * A student's participation in an activity (ActivityParticipation.java and
 * ParticipationStatus.java): the stored row, the entity object the services
 * edit, and its JPA lifecycle hooks, which stamp times when a row is first
 * inserted (@PrePersist) and when it is updated (@PreUpdate).
 */
module Participations {
  import opened Wrappers
  import opened Users
  import opened Activities

  datatype ParticipationStatus = REGISTERED | COMPLETED | CANCELLED

  function ParticipationStatusName(s: ParticipationStatus): string {
    match s
    case REGISTERED => "REGISTERED"
    case COMPLETED => "COMPLETED"
    case CANCELLED => "CANCELLED"
  }

  /** One row of the activity_participations table. */
  datatype Participation = Participation(
    id: int,
    userId: UserId,
    activityId: ActivityId,
    status: ParticipationStatus,
    registerTime: Option<Instant>,
    completeTime: Option<Instant>,
    cancelTime: Option<Instant>,
    createdAt: Option<Instant>,
    updatedAt: Option<Instant>)

  /**
   * What `onCreate` leaves in the row. It reads the clock three times: t1 for
   * createdAt, t2 for updatedAt and t3 for a registerTime it fills in.
   */
  function Created(p: Participation, t1: Instant, t2: Instant, t3: Instant): (q: Participation)
    ensures q.createdAt == Some(t1) && q.updatedAt == Some(t2)
    ensures q.status.REGISTERED? ==> q.registerTime.Some?
    ensures p.registerTime.Some? ==> q.registerTime == p.registerTime
    ensures q.registerTime != p.registerTime <==> p.status.REGISTERED? && p.registerTime.None?
    ensures q.registerTime != p.registerTime ==> q.registerTime == Some(t3)
    ensures q.(registerTime := p.registerTime, createdAt := p.createdAt, updatedAt := p.updatedAt) == p
  {
    var r := if p.status.REGISTERED? && p.registerTime.None? then Some(t3) else p.registerTime;
    p.(createdAt := Some(t1), updatedAt := Some(t2), registerTime := r)
  }

  /**
   * What `onUpdate` leaves in the row: updatedAt := t1 always; an absent
   * completeTime of a COMPLETED row, or else an absent cancelTime of a
   * CANCELLED row, becomes t2. A timestamp already set is never overwritten.
   */
  function Updated(p: Participation, t1: Instant, t2: Instant): (q: Participation)
    ensures q.updatedAt == Some(t1)
    ensures q.status.COMPLETED? ==> q.completeTime.Some?
    ensures q.status.CANCELLED? ==> q.cancelTime.Some?
    ensures p.completeTime.Some? ==> q.completeTime == p.completeTime
    ensures p.cancelTime.Some? ==> q.cancelTime == p.cancelTime
    ensures q.completeTime != p.completeTime ==> q.completeTime == Some(t2) && p.status.COMPLETED?
    ensures q.cancelTime != p.cancelTime ==> q.cancelTime == Some(t2) && p.status.CANCELLED?
    ensures q.(completeTime := p.completeTime, cancelTime := p.cancelTime, updatedAt := p.updatedAt) == p
  {
    var p' := p.(updatedAt := Some(t1));
    if p.status.COMPLETED? && p.completeTime.None? then p'.(completeTime := Some(t2))
    else if p.status.CANCELLED? && p.cancelTime.None? then p'.(cancelTime := Some(t2))
    else p'
  }

  /** A second update only moves updatedAt: the first one fixed every other time. */
  lemma UpdatedTwice(p: Participation, t1: Instant, t2: Instant, u1: Instant, u2: Instant)
    ensures Updated(Updated(p, t1, t2), u1, u2) == Updated(p, t1, t2).(updatedAt := Some(u1))
  {
  }

  /** The entity object a service loads, edits through setters and saves. */
  class ActivityParticipation {
    var id: int
    var userId: UserId
    var activityId: ActivityId
    var status: ParticipationStatus
    var registerTime: Option<Instant>
    var completeTime: Option<Instant>
    var cancelTime: Option<Instant>
    var createdAt: Option<Instant>
    var updatedAt: Option<Instant>

    /** The row this object would be saved as. */
    function Row(): Participation
      reads this
    {
      Participation(id, userId, activityId, status, registerTime, completeTime,
        cancelTime, createdAt, updatedAt)
    }

    /** `new ActivityParticipation()` followed by setUser, setActivity and setStatus. */
    constructor (id: int, userId: UserId, activityId: ActivityId, status: ParticipationStatus)
      ensures Row() == Participation(id, userId, activityId, status, None, None, None, None, None)
    {
      this.id := id;
      this.userId := userId;
      this.activityId := activityId;
      this.status := status;
      registerTime := None;
      completeTime := None;
      cancelTime := None;
      createdAt := None;
      updatedAt := None;
    }

    /** The object JPA builds from a stored row. */
    constructor Load(row: Participation)
      ensures Row() == row
    {
      id := row.id;
      userId := row.userId;
      activityId := row.activityId;
      status := row.status;
      registerTime := row.registerTime;
      completeTime := row.completeTime;
      cancelTime := row.cancelTime;
      createdAt := row.createdAt;
      updatedAt := row.updatedAt;
    }

    /** @PrePersist `onCreate`, run when the row is first inserted. */
    method OnCreate(t1: Instant, t2: Instant, t3: Instant)
      modifies this
      ensures Row() == Created(old(Row()), t1, t2, t3)
    {
      createdAt := Some(t1);
      updatedAt := Some(t2);
      if status.REGISTERED? && registerTime.None? {
        registerTime := Some(t3);
      }
    }

    /** @PreUpdate `onUpdate`, run when a changed row is written back. */
    method OnUpdate(t1: Instant, t2: Instant)
      modifies this
      ensures Row() == Updated(old(Row()), t1, t2)
    {
      updatedAt := Some(t1);
      if status.COMPLETED? && completeTime.None? {
        completeTime := Some(t2);
      } else if status.CANCELLED? && cancelTime.None? {
        cancelTime := Some(t2);
      }
    }
  }
}
