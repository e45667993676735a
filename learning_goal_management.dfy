/**
 * frontend/src/components/teacher/LearningGoalManagement.tsx: the teacher's
 * learning goals, filtered by title and by a status tab, with a status tag,
 * a progress percentage and the number of assigned students.
 */
module LearningGoalManagement {
  import opened Wrappers
  import opened JavaStrings
  import opened Scripts

  datatype Goal = Goal(id: nat, title: string, description: string, deadline: string,
                       status: string, progress: int, assignedStudents: Option<int>)

  /** The status a tab key stands for; 'all' and the unknown keys stand for none. */
  function TabStatus(tab: string): (r: Option<string>)
    ensures tab == "inProgress" ==> r == Some("IN_PROGRESS")
    ensures tab == "completed" ==> r == Some("COMPLETED")
    ensures tab == "pendingReview" ==> r == Some("PENDING_REVIEW")
    ensures tab !in {"inProgress", "completed", "pendingReview"} ==> r.None?
  {
    if tab == "inProgress" then Some("IN_PROGRESS")
    else if tab == "completed" then Some("COMPLETED")
    else if tab == "pendingReview" then Some("PENDING_REVIEW")
    else None
  }

  /** The tab test of `filteredGoals`. */
  predicate MatchesTab(tab: string, status: string) {
    tab == "all"
    || (tab == "inProgress" && status == "IN_PROGRESS")
    || (tab == "completed" && status == "COMPLETED")
    || (tab == "pendingReview" && status == "PENDING_REVIEW")
  }

  /** The tab test is `'all'`, or the tab's status. */
  lemma MatchesTabByStatus(tab: string, status: string)
    ensures MatchesTab(tab, status) <==> tab == "all" || TabStatus(tab) == Some(status)
  {
  }

  predicate Shown(lower: string -> string, g: Goal, search: string, tab: string) {
    IncludesIgnoringCase(lower, g.title, search) && MatchesTab(tab, g.status)
  }

  /** `filteredGoals`: a goal is shown iff its title contains the search and its status matches the tab. */
  function FilteredGoals(lower: string -> string, goals: seq<Goal>, search: string, tab: string): (r: seq<Goal>)
    ensures forall i :: 0 <= i < |r| ==>
      r[i] in goals && IncludesIgnoringCase(lower, r[i].title, search) && MatchesTab(tab, r[i].status)
    ensures forall i :: 0 <= i < |goals| ==>
      (IncludesIgnoringCase(lower, goals[i].title, search) && MatchesTab(tab, goals[i].status)
       ==> goals[i] in r)
  {
    Filter(goals, (g: Goal) => Shown(lower, g, search, tab))
  }

  /** The 'all' tab with an empty search shows every goal, in order. */
  lemma AllTabEmptySearchKeepsAll(lower: string -> string, goals: seq<Goal>)
    requires lower("") == ""
    ensures FilteredGoals(lower, goals, "", "all") == goals
  {
    forall i | 0 <= i < |goals| ensures Shown(lower, goals[i], "", "all") {
      EmptySearchMatches(lower, goals[i].title);
    }
    FilterKeepsAll(goals, (g: Goal) => Shown(lower, g, "", "all"));
  }

  /** The status column: the three statuses get a label; any other is shown as it is. */
  function StatusTag(status: string): (t: Label)
    ensures status == "IN_PROGRESS" ==> t == Label("processing", "进行中")
    ensures status == "COMPLETED" ==> t == Label("success", "已完成")
    ensures status == "PENDING_REVIEW" ==> t == Label("warning", "待审核")
    ensures status !in {"IN_PROGRESS", "COMPLETED", "PENDING_REVIEW"} ==> t == Label("default", status)
  {
    if status == "IN_PROGRESS" then Label("processing", "进行中")
    else if status == "COMPLETED" then Label("success", "已完成")
    else if status == "PENDING_REVIEW" then Label("warning", "待审核")
    else Label("default", status)
  }

  /** Every goal a status tab shows carries that tab's label, never its raw status. */
  lemma TabGoalsAreLabelled(tab: string, status: string)
    requires tab != "all" && MatchesTab(tab, status)
    ensures StatusTag(status).color != "default" && StatusTag(status).text != status
  {
  }

  /** The progress column: `${progress}%`. */
  function ProgressText(progress: int): (s: string)
    ensures |s| >= 2 && s[|s| - 1] == '%'
  {
    LongText(progress) + "%"
  }

  lemma {:induction false} DigitsThenStop(d: string, rest: string)
    requires forall i :: 0 <= i < |d| ==> IsDigit(d[i])
    requires |rest| > 0 && !IsDigit(rest[0])
    ensures LeadingDigits(d + rest) == d
    decreases |d|
  {
    if |d| == 0 {
      assert d + rest == rest;
    } else {
      assert (d + rest)[1..] == d[1..] + rest;
      DigitsThenStop(d[1..], rest);
      assert [d[0]] + d[1..] == d;
    }
  }

  /** `parseInt` of digits followed by a stop reads the digits. */
  lemma ParseDigitsThenStop(d: string, stop: string)
    requires |d| >= 1 && forall i :: 0 <= i < |d| ==> IsDigit(d[i])
    requires |stop| > 0 && !IsDigit(stop[0])
    ensures ParseInt(d + stop) == Some(DigitsValue(d))
  {
    var s := d + stop;
    DigitsThenStop(d, stop);
    assert s[0] == d[0];
    assert !(s[0] == '-' || s[0] == '+');
    assert LeadingDigits(s) == d;
  }

  /** `parseInt` of a minus sign before a text whose leading digits are d reads -d. */
  lemma ParseMinus(rest: string, d: string)
    requires |d| >= 1 && forall i :: 0 <= i < |d| ==> IsDigit(d[i])
    requires LeadingDigits(rest) == d
    ensures ParseInt(['-'] + rest) == Some(0 - DigitsValue(d))
  {
    var s := ['-'] + rest;
    assert s[1..] == rest;
  }

  /** `parseInt` of a minus sign, digits and a stop reads the negated digits. */
  lemma ParseNegativeThenStop(d: string, stop: string)
    requires |d| >= 1 && forall i :: 0 <= i < |d| ==> IsDigit(d[i])
    requires |stop| > 0 && !IsDigit(stop[0])
    ensures ParseInt(['-'] + (d + stop)) == Some(0 - DigitsValue(d))
  {
    DigitsThenStop(d, stop);
    ParseMinus(d + stop, d);
  }

  /** The progress text reads back as the progress: `parseInt` stops at the '%'. */
  lemma ProgressReadsBack(progress: int)
    ensures ParseInt(ProgressText(progress)) == Some(progress)
  {
    if progress < 0 {
      NegativeProgressReadsBack(progress);
    } else {
      var d := NatText(progress);
      NatTextDigits(progress);
      assert ProgressText(progress) == d + "%";
      ParseDigitsThenStop(d, "%");
    }
  }

  /** A negative progress is shown as '-', the digits of -progress, then '%'. */
  lemma NegativeProgressText(progress: int)
    requires progress < 0
    ensures ProgressText(progress) == ['-'] + (NatText(-progress) + "%")
  {
    var d := NatText(-progress);
    assert LongText(progress) == ['-'] + d;
  }

  /** '-', the digits of m, then '%' reads back as -m. */
  lemma NegatedDigitsReadBack(m: nat)
    ensures ParseInt(['-'] + (NatText(m) + "%")) == Some(0 - m)
  {
    NatTextDigits(m);
    ParseNegativeThenStop(NatText(m), "%");
  }

  /** The negative half of `ProgressReadsBack`. */
  lemma NegativeProgressReadsBack(progress: int)
    requires progress < 0
    ensures ParseInt(ProgressText(progress)) == Some(progress)
  {
    NegativeProgressText(progress);
    NegativeTextReadsBack(progress, -progress, ProgressText(progress));
  }

  /** A text that is '-', the digits of m = -progress, then '%' reads back as progress. */
  lemma NegativeTextReadsBack(progress: int, m: nat, t: string)
    requires progress < 0 && m == -progress && t == ['-'] + (NatText(m) + "%")
    ensures ParseInt(t) == Some(progress)
  {
    NegatedDigitsReadBack(m);
  }

  /** The assigned-students column: `count || 0`, so a missing or zero count shows 0. */
  function AssignedText(count: Option<int>): (n: int)
    ensures count.Some? ==> n == count.value
    ensures count.None? ==> n == 0
  {
    if TruthyNumber(count) then count.value else 0
  }
}
