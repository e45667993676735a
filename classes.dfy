/**
 * Classes and the applications to join them (ClassApplication.java). A
 * class's roster is a `java.util.List` of students: `add` appends without
 * looking, `remove` drops the first occurrence. Users are referred to by id.
 */
module Classes {
  import opened Wrappers
  import opened Users
  import opened Activities

  type ClassId = int
  type ApplicationId = int

  datatype ApplicationStatus = PENDING | APPROVED | REJECTED

  function ApplicationStatusName(s: ApplicationStatus): string {
    match s
    case PENDING => "PENDING"
    case APPROVED => "APPROVED"
    case REJECTED => "REJECTED"
  }

  /** `ApplicationStatus.valueOf(s)`: only an exact constant name is accepted. */
  function ApplicationStatusValueOf(s: string): (r: Option<ApplicationStatus>)
    ensures r.Some? ==> ApplicationStatusName(r.value) == s
    ensures r.None? ==> forall x: ApplicationStatus :: ApplicationStatusName(x) != s
  {
    if s == "PENDING" then Some(PENDING)
    else if s == "APPROVED" then Some(APPROVED)
    else if s == "REJECTED" then Some(REJECTED)
    else None
  }

  /** One row of the classes table; `teacher` is a nullable reference. */
  datatype ClassEntity = ClassEntity(
    id: ClassId,
    name: Option<string>,
    description: Option<string>,
    teacher: Option<UserId>,
    students: seq<UserId>)

  /** One row of class_applications (its createdAt/updatedAt columns are not modelled). */
  datatype ClassApplication = ClassApplication(
    id: ApplicationId,
    student: UserId,
    classId: ClassId,
    status: ApplicationStatus,
    message: Option<string>,
    rejectReason: Option<string>,
    handledAt: Option<Instant>)

  /** No student is listed twice. */
  predicate NoDuplicates(s: seq<UserId>) {
    forall i, j :: 0 <= i < j < |s| ==> s[i] != s[j]
  }

  /** `list.indexOf(x)`: the first position of x, or |s| when x is absent. */
  function IndexOf(s: seq<UserId>, x: UserId): (k: nat)
    ensures k <= |s| && x !in s[..k]
    ensures k < |s| ==> s[k] == x
    ensures k == |s| ==> x !in s
    decreases |s|
  {
    if |s| == 0 then 0
    else if s[0] == x then 0
    else
      var k := IndexOf(s[1..], x);
      assert s[..k + 1] == [s[0]] + s[1..][..k];
      k + 1
  }

  /**
   * `list.remove(x)`: the first occurrence of x, if any, is dropped and the
   * other elements keep their order; as a bag, exactly one x goes.
   */
  function RemoveFirst(s: seq<UserId>, x: UserId): (r: seq<UserId>)
    ensures x !in s ==> r == s
    ensures x in s ==> |r| == |s| - 1 && r == s[..IndexOf(s, x)] + s[IndexOf(s, x) + 1..]
    ensures multiset(r) == multiset(s) - multiset{x}
  {
    var k := IndexOf(s, x);
    if k < |s| then
      assert s == s[..k] + [s[k]] + s[k + 1..];
      s[..k] + s[k + 1..]
    else
      assert multiset(s)[x] == 0;
      s
  }

  /** Dropping position k of a roster without duplicates loses exactly that member. */
  lemma {:induction false} DropAt(s: seq<UserId>, k: nat)
    requires NoDuplicates(s) && k < |s|
    ensures s[k] !in s[..k] + s[k + 1..]
    ensures forall y :: y != s[k] ==> (y in s[..k] + s[k + 1..] <==> y in s)
    ensures NoDuplicates(s[..k] + s[k + 1..])
  {
    var r := s[..k] + s[k + 1..];
    assert forall i :: 0 <= i < |r| ==> r[i] == if i < k then s[i] else s[i + 1];
    forall y | y != s[k] && y in s
      ensures y in r
    {
      var i :| 0 <= i < |s| && s[i] == y;
      if i < k { assert r[i] == y; } else { assert r[i - 1] == y; }
    }
  }

  /**
   * On a roster without duplicates, `remove` takes the student out for good,
   * keeps every other member and keeps the roster free of duplicates.
   */
  lemma {:induction false} RemoveFromRoster(s: seq<UserId>, x: UserId)
    requires NoDuplicates(s)
    ensures x !in RemoveFirst(s, x)
    ensures forall y :: y != x ==> (y in RemoveFirst(s, x) <==> y in s)
    ensures NoDuplicates(RemoveFirst(s, x))
  {
    var k := IndexOf(s, x);
    if k < |s| {
      DropAt(s, k);
    }
  }

  /** Appending a student who is not yet listed keeps the roster free of duplicates. */
  lemma {:induction false} AddToRoster(s: seq<UserId>, x: UserId)
    requires NoDuplicates(s) && x !in s
    ensures NoDuplicates(s + [x])
  {
    forall i, j | 0 <= i < j < |s + [x]| ensures (s + [x])[i] != (s + [x])[j] {
      if j == |s| {
        assert (s + [x])[i] == s[i];
      }
    }
  }
}
