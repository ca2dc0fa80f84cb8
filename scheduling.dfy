/**
 * The capacity ledger: a volunteer's committed weekly hours are the hours of
 * the opportunities whose applications were ACCEPTED, and a new commitment is
 * admitted only if the total stays within the profile's weekly maximum.
 * A volunteer without a profile is always admitted.
 */
module Scheduling {
  import opened Wrappers
  import opened Opportunities

  /** A volunteer's profile; `availability` maps a weekday to a free-text time window. */
  datatype VolunteerProfile = VolunteerProfile(
    user: UserId,
    skills: string,
    interests: string,
    availability: map<string, string>,
    maxHoursPerWeek: int)

  const DefaultMaxHoursPerWeek: int := 10

  /** A profile whose weekly maximum passed its field validator. */
  predicate ValidProfile(p: VolunteerProfile) {
    p.maxHoursPerWeek >= 0
  }

  /** The profile created on a volunteer's first visit: empty texts, no availability, the default maximum. */
  function NewProfile(user: UserId): (p: VolunteerProfile)
    ensures ValidProfile(p) && p.user == user
    ensures p.maxHoursPerWeek == 10 && |p.availability| == 0
    ensures p.skills == "" && p.interests == ""
  {
    VolunteerProfile(user, "", "", map[], DefaultMaxHoursPerWeek)
  }

  // ---------------------------------------------------------------------
  // Committed hours
  // ---------------------------------------------------------------------

  /** The volunteer's ACCEPTED applications, in table order. */
  function AcceptedApplications(volunteer: UserId, applications: seq<Application>): (accepted: seq<Application>)
    ensures |accepted| <= |applications|
    ensures forall a :: a in accepted <==> a in applications && a.volunteer == volunteer && a.status == Accepted
  {
    if applications == [] then []
    else
      var a := applications[0];
      (if a.volunteer == volunteer && a.status == Accepted then [a] else [])
        + AcceptedApplications(volunteer, applications[1..])
  }

  /** The summed weekly hours of the applications' opportunities. */
  function SumHours(applications: seq<Application>): int {
    if applications == [] then 0
    else applications[0].opportunity.minHoursPerWeek + SumHours(applications[1..])
  }

  /** Hours the volunteer is committed to: the sum over their ACCEPTED applications. */
  function CurrentHours(volunteer: UserId, applications: seq<Application>): int {
    SumHours(AcceptedApplications(volunteer, applications))
  }

  /** What one application contributes to its volunteer's committed hours. */
  function Contribution(volunteer: UserId, a: Application): int {
    if a.volunteer == volunteer && a.status == Accepted then a.opportunity.minHoursPerWeek else 0
  }

  lemma {:induction false} AcceptedConcat(volunteer: UserId, x: seq<Application>, y: seq<Application>)
    ensures AcceptedApplications(volunteer, x + y)
         == AcceptedApplications(volunteer, x) + AcceptedApplications(volunteer, y)
  {
    if x == [] {
      assert x + y == y;
    } else {
      assert (x + y)[1..] == x[1..] + y;
      AcceptedConcat(volunteer, x[1..], y);
    }
  }

  lemma {:induction false} SumHoursConcat(x: seq<Application>, y: seq<Application>)
    ensures SumHours(x + y) == SumHours(x) + SumHours(y)
  {
    if x == [] {
      assert x + y == y;
    } else {
      assert (x + y)[1..] == x[1..] + y;
      SumHoursConcat(x[1..], y);
    }
  }

  /** Committed hours split over a concatenation of application tables. */
  lemma CurrentHoursConcat(volunteer: UserId, x: seq<Application>, y: seq<Application>)
    ensures CurrentHours(volunteer, x + y) == CurrentHours(volunteer, x) + CurrentHours(volunteer, y)
  {
    AcceptedConcat(volunteer, x, y);
    SumHoursConcat(AcceptedApplications(volunteer, x), AcceptedApplications(volunteer, y));
  }

  lemma CurrentHoursSingle(volunteer: UserId, a: Application)
    ensures CurrentHours(volunteer, [a]) == Contribution(volunteer, a)
  {
    assert [a][1..] == [];
    var accepted := AcceptedApplications(volunteer, [a]);
    if a.volunteer == volunteer && a.status == Accepted {
      assert accepted == [a];
      assert SumHours([a]) == a.opportunity.minHoursPerWeek + SumHours([]);
    } else {
      assert accepted == [];
    }
  }

  /**
   * Inserting one application anywhere in the table changes the committed hours
   * by its contribution: its hours if it is the volunteer's and ACCEPTED,
   * nothing if it is PENDING, REJECTED, WITHDRAWN or another volunteer's.
   */
  lemma InsertApplication(volunteer: UserId, applications: seq<Application>, i: nat, a: Application)
    requires i <= |applications|
    ensures CurrentHours(volunteer, applications[..i] + [a] + applications[i..])
         == CurrentHours(volunteer, applications) + Contribution(volunteer, a)
  {
    CurrentHoursConcat(volunteer, applications[..i] + [a], applications[i..]);
    CurrentHoursConcat(volunteer, applications[..i], [a]);
    CurrentHoursSingle(volunteer, a);
    CurrentHoursConcat(volunteer, applications[..i], applications[i..]);
    assert applications[..i] + applications[i..] == applications;
  }

  /**
   * Changing the status of one application (accepting, rejecting or
   * withdrawing it) moves the committed hours by exactly the change in its
   * contribution.
   */
  lemma UpdateStatus(volunteer: UserId, applications: seq<Application>, i: nat, s: ApplicationStatus)
    requires i < |applications|
    ensures var updated := applications[i := applications[i].(status := s)];
      CurrentHours(volunteer, updated)
        == CurrentHours(volunteer, applications)
           - Contribution(volunteer, applications[i])
           + Contribution(volunteer, applications[i].(status := s))
  {
    var a := applications[i];
    var rest := applications[..i] + applications[i + 1..];
    assert applications == rest[..i] + [a] + rest[i..];
    InsertApplication(volunteer, rest, i, a);
    var updated := applications[i := a.(status := s)];
    assert updated == rest[..i] + [a.(status := s)] + rest[i..];
    InsertApplication(volunteer, rest, i, a.(status := s));
  }

  /** Every application of the table has non-negative weekly hours, as every stored opportunity has. */
  predicate NonNegativeHours(applications: seq<Application>) {
    forall i :: 0 <= i < |applications| ==> applications[i].opportunity.minHoursPerWeek >= 0
  }

  lemma {:induction false} CurrentHoursNonNegative(volunteer: UserId, applications: seq<Application>)
    requires NonNegativeHours(applications)
    ensures CurrentHours(volunteer, applications) >= 0
  {
    if applications != [] {
      assert NonNegativeHours(applications[1..]);
      CurrentHoursNonNegative(volunteer, applications[1..]);
      CurrentHoursConcat(volunteer, [applications[0]], applications[1..]);
      CurrentHoursSingle(volunteer, applications[0]);
      assert [applications[0]] + applications[1..] == applications;
    }
  }

  /** Adding applications with non-negative hours never lowers the committed hours. */
  lemma CurrentHoursMonotone(volunteer: UserId, applications: seq<Application>, more: seq<Application>)
    requires NonNegativeHours(more)
    ensures CurrentHours(volunteer, applications + more) >= CurrentHours(volunteer, applications)
  {
    CurrentHoursConcat(volunteer, applications, more);
    CurrentHoursNonNegative(volunteer, more);
  }

  // ---------------------------------------------------------------------
  // Admission
  // ---------------------------------------------------------------------

  /** The verdict of `check_hours_limit`: (can_apply, current_hours, would_be_hours). */
  datatype HoursCheck = HoursCheck(canApply: bool, currentHours: int, wouldBeHours: int)

  /**
   * `check_hours_limit`: without a profile the candidate is admitted with no
   * committed hours; otherwise it is admitted iff the committed hours plus
   * the candidate's hours stay within the profile's maximum.
   */
  function CheckHoursLimit(
    volunteer: UserId, profile: Option<VolunteerProfile>,
    applications: seq<Application>, candidate: Opportunity): (r: HoursCheck)
    ensures r.wouldBeHours == r.currentHours + candidate.minHoursPerWeek
  {
    match profile
    case None => HoursCheck(true, 0, candidate.minHoursPerWeek)
    case Some(p) =>
      var current := CurrentHours(volunteer, applications);
      var wouldBe := current + candidate.minHoursPerWeek;
      HoursCheck(wouldBe <= p.maxHoursPerWeek, current, wouldBe)
  }

  /** Without a profile every candidate is admitted, whatever the applications say. */
  lemma NoProfileAdmitsAll(volunteer: UserId, applications: seq<Application>, candidate: Opportunity)
    ensures CheckHoursLimit(volunteer, None, applications, candidate)
         == HoursCheck(true, 0, candidate.minHoursPerWeek)
  {
  }

  /**
   * With a profile, a candidate is admitted exactly when its hours fit in
   * what the ACCEPTED applications leave of the weekly maximum.
   */
  lemma AdmissionFitsCapacity(volunteer: UserId, p: VolunteerProfile, applications: seq<Application>, candidate: Opportunity)
    ensures var r := CheckHoursLimit(volunteer, Some(p), applications, candidate);
      && r.currentHours == CurrentHours(volunteer, applications)
      && (r.canApply <==> candidate.minHoursPerWeek <= p.maxHoursPerWeek - CurrentHours(volunteer, applications))
  {
  }

  /**
   * Applications that are not the volunteer's ACCEPTED ones do not affect the
   * verdict, wherever they are inserted.
   */
  lemma NonAcceptedDoNotCount(
    volunteer: UserId, profile: Option<VolunteerProfile>, applications: seq<Application>,
    i: nat, a: Application, candidate: Opportunity)
    requires i <= |applications|
    requires a.status != Accepted || a.volunteer != volunteer
    ensures CheckHoursLimit(volunteer, profile, applications[..i] + [a] + applications[i..], candidate)
         == CheckHoursLimit(volunteer, profile, applications, candidate)
  {
    InsertApplication(volunteer, applications, i, a);
  }

  /** A rejected candidate stays rejected as more commitments (of non-negative hours) are added. */
  lemma RejectionIsStable(
    volunteer: UserId, p: VolunteerProfile, applications: seq<Application>,
    more: seq<Application>, candidate: Opportunity)
    requires NonNegativeHours(more)
    requires !CheckHoursLimit(volunteer, Some(p), applications, candidate).canApply
    ensures !CheckHoursLimit(volunteer, Some(p), applications + more, candidate).canApply
  {
    CurrentHoursMonotone(volunteer, applications, more);
  }

  // ---------------------------------------------------------------------
  // Schedule
  // ---------------------------------------------------------------------

  /** One accepted commitment as listed in the schedule. */
  datatype ScheduleEntry = ScheduleEntry(
    opportunity: Opportunity,
    application: Application,
    hoursPerWeek: int,
    startDate: Date,
    endDate: Date)

  datatype Schedule = Schedule(
    entries: seq<ScheduleEntry>,
    totalHours: int,
    maxHours: int,
    remainingCapacity: int)

  /** The schedule entry describing an accepted application. */
  function EntryFor(a: Application): ScheduleEntry {
    ScheduleEntry(a.opportunity, a, a.opportunity.minHoursPerWeek,
                  a.opportunity.startDate, a.opportunity.endDate)
  }

  /**
   * `get_volunteer_schedule`: one entry per ACCEPTED application of the
   * volunteer, their hour total (the ledger's committed hours), the maximum
   * and the unclamped remaining capacity. Without a profile everything is empty.
   */
  method GetVolunteerSchedule(volunteer: UserId, profile: Option<VolunteerProfile>, applications: seq<Application>)
    returns (schedule: Schedule)
    ensures profile.None? ==> schedule == Schedule([], 0, 0, 0)
    ensures profile.Some? ==>
      var accepted := AcceptedApplications(volunteer, applications);
      && |schedule.entries| == |accepted|
      && (forall k :: 0 <= k < |accepted| ==> schedule.entries[k] == EntryFor(accepted[k]))
      && schedule.totalHours == CurrentHours(volunteer, applications)
      && schedule.maxHours == profile.value.maxHoursPerWeek
      && schedule.remainingCapacity == schedule.maxHours - schedule.totalHours
    ensures profile.Some? ==> forall candidate ::
      && CheckHoursLimit(volunteer, profile, applications, candidate).currentHours == schedule.totalHours
      && (CheckHoursLimit(volunteer, profile, applications, candidate).canApply <==>
          candidate.minHoursPerWeek <= schedule.remainingCapacity)
  {
    if profile.None? {
      return Schedule([], 0, 0, 0);
    }
    var p := profile.value;
    var accepted := AcceptedApplications(volunteer, applications);
    var entries: seq<ScheduleEntry> := [];
    var total := 0;
    var i := 0;
    while i < |accepted|
      invariant 0 <= i <= |accepted|
      invariant |entries| == i
      invariant forall k :: 0 <= k < i ==> entries[k] == EntryFor(accepted[k])
      invariant total == SumHours(accepted[..i])
    {
      var a := accepted[i];
      var hours := a.opportunity.minHoursPerWeek;
      entries := entries + [ScheduleEntry(a.opportunity, a, hours, a.opportunity.startDate, a.opportunity.endDate)];
      SumHoursConcat(accepted[..i], [a]);
      assert accepted[..i + 1] == accepted[..i] + [a];
      assert SumHours([a]) == hours;
      total := total + hours;
      i := i + 1;
    }
    assert accepted[..i] == accepted;
    schedule := Schedule(entries, total, p.maxHoursPerWeek, p.maxHoursPerWeek - total);
  }

  // ---------------------------------------------------------------------
  // Worked scenarios (maximum of 10 hours a week)
  // ---------------------------------------------------------------------

  /** No commitments and a 5-hour candidate: admitted, 0 committed, 5 would be. */
  lemma ScenarioWithinLimit(volunteer: UserId, p: VolunteerProfile, candidate: Opportunity)
    requires p.maxHoursPerWeek == 10 && candidate.minHoursPerWeek == 5
    ensures CheckHoursLimit(volunteer, Some(p), [], candidate) == HoursCheck(true, 0, 5)
  {
  }

  /** No commitments and a 15-hour candidate: refused. */
  lemma ScenarioExceedsLimit(volunteer: UserId, p: VolunteerProfile, candidate: Opportunity)
    requires p.maxHoursPerWeek == 10 && candidate.minHoursPerWeek == 15
    ensures !CheckHoursLimit(volunteer, Some(p), [], candidate).canApply
  {
  }

  /** One accepted 6-hour commitment and a 5-hour candidate: (False, 6, 11). */
  lemma ScenarioWithAcceptedCommitment(volunteer: UserId, p: VolunteerProfile, first: Opportunity, candidate: Opportunity)
    requires p.maxHoursPerWeek == 10 && first.minHoursPerWeek == 6 && candidate.minHoursPerWeek == 5
    ensures CheckHoursLimit(volunteer, Some(p), [Application(volunteer, first, Accepted)], candidate)
         == HoursCheck(false, 6, 11)
  {
    CurrentHoursSingle(volunteer, Application(volunteer, first, Accepted));
  }
}
