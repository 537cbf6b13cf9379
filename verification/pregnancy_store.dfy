/** The pregnancy-progress store (app/src/state/pregnancyStore.ts). The
    clock and the date parser enter as one function `diff`: the whole-day
    difference between a due-date string and now, or `None` when the
    string is not a valid date. */
module PregnancyStore {
  import opened Wrappers
  import opened Js
  import opened Pregnancy
  import opened UserTypes
  import opened WeeklyData

  datatype PregnancyState = PregnancyState(
    profile: Option<UserProfile>,
    currentWeek: int,
    currentDay: int,
    trimester: Trimester,
    daysUntilDue: int,
    weekData: Option<WeekEntry>)

  /** The store's initial values, which `clear` restores. */
  const InitialState: PregnancyState := PregnancyState(None, 0, 0, 1, 0, None)

  /** `PREGNANCY.FIRST_TRIMESTER_END` and `SECOND_TRIMESTER_END`
      (app/src/constants/index.ts). */
  const FirstTrimesterEnd: int := 13
  const SecondTrimesterEnd: int := 27

  /** The store's own trimester rule, applied to the unclamped week. */
  function StoreTrimester(week: int): Trimester {
    if week > SecondTrimesterEnd then 3
    else if week > FirstTrimesterEnd then 2
    else 1
  }

  /** `calculateCurrentWeek`. No profile, an empty due date or one that does
      not parse leaves the state as it is. */
  function CalculateCurrentWeek(s: PregnancyState, diff: string -> Option<int>): (r: PregnancyState)
    ensures s.profile.None? || s.profile.value.dueDate == "" ==> r == s
    ensures s.profile.Some? && diff(s.profile.value.dueDate).None? ==> r == s
    ensures r.profile == s.profile && r.weekData == s.weekData
    ensures r != s ==> (
      && 1 <= r.currentWeek <= PregnancyWeeks
      && 1 <= r.currentDay <= DaysPerWeek
      && r.daysUntilDue >= 0)
  {
    if s.profile.None? || s.profile.value.dueDate == "" then s
    else match diff(s.profile.value.dueDate)
      case None => s
      case Some(daysUntilDue) =>
        var daysPassed := PregnancyWeeks * DaysPerWeek - daysUntilDue;
        var currentWeek := FloorDiv(daysPassed, DaysPerWeek) + 1;
        var currentDay := Rem(daysPassed, DaysPerWeek) + 1;
        s.(currentWeek := Clamp(currentWeek, 1, PregnancyWeeks),
           currentDay := Clamp(currentDay, 1, 7),
           trimester := StoreTrimester(currentWeek),
           daysUntilDue := Max(0, daysUntilDue))
  }

  /** Whenever the store recalculates, it reports what
      `calculatePregnancyProgress` reports for the same day difference; in
      particular its trimester, taken from the unclamped week, is that of
      the clamped week. */
  lemma StoreAgreesWithProgress(s: PregnancyState, diff: string -> Option<int>)
    requires s.profile.Some? && s.profile.value.dueDate != ""
    requires diff(s.profile.value.dueDate).Some?
    ensures var r := CalculateCurrentWeek(s, diff);
      var p := CalculatePregnancyProgress(diff(s.profile.value.dueDate).value);
      && r.currentWeek == p.currentWeek
      && r.currentDay == p.currentDay
      && r.trimester == p.trimester == GetTrimester(r.currentWeek)
      && r.daysUntilDue == p.daysUntilDue
      && 1 <= r.currentWeek <= PregnancyWeeks && 1 <= r.currentDay <= DaysPerWeek && r.daysUntilDue >= 0
  {
    var d := diff(s.profile.value.dueDate).value;
    var week := FloorDiv(ElapsedDays(d), DaysPerWeek) + 1;
    var r := CalculateCurrentWeek(s, diff);
    var p := CalculatePregnancyProgress(d);
    assert r.currentWeek == Clamp(week, 1, PregnancyWeeks) == p.currentWeek;
    assert r.currentDay == Clamp(Rem(ElapsedDays(d), DaysPerWeek) + 1, 1, 7) == p.currentDay;
    assert r.trimester == StoreTrimester(week);
    StoreTrimesterClamped(week);
  }

  /** The unclamped rule and `getTrimester` of the clamped week agree. */
  lemma StoreTrimesterClamped(week: int)
    ensures StoreTrimester(week) == GetTrimester(Clamp(week, 1, PregnancyWeeks))
  {
  }

  /** `setProfile`: store the profile, then recalculate. */
  function SetProfile(s: PregnancyState, p: UserProfile, diff: string -> Option<int>): (r: PregnancyState)
    ensures r.profile == Some(p)
    ensures r.weekData == s.weekData
  {
    CalculateCurrentWeek(s.(profile := Some(p)), diff)
  }

  /** `updateDueDate`: without a profile nothing happens; otherwise only the
      due date and the update time of the profile change, then the state is
      recalculated. */
  function UpdateDueDate(s: PregnancyState, dueDate: string, now: string, diff: string -> Option<int>): (r: PregnancyState)
    ensures s.profile.None? ==> r == s
    ensures s.profile.Some? ==> r.profile == Some(s.profile.value.(dueDate := dueDate, updatedAt := now))
  {
    if s.profile.None? then s
    else CalculateCurrentWeek(s.(profile := Some(s.profile.value.(dueDate := dueDate, updatedAt := now))), diff)
  }

  /** Updating the due date is setting the profile with the new date. */
  lemma UpdateIsSetProfile(s: PregnancyState, dueDate: string, now: string, diff: string -> Option<int>)
    requires s.profile.Some?
    ensures UpdateDueDate(s, dueDate, now, diff)
         == SetProfile(s, s.profile.value.(dueDate := dueDate, updatedAt := now), diff)
  {
  }

  /** `setWeekData`. */
  function SetWeekData(s: PregnancyState, data: WeekEntry): (r: PregnancyState)
    ensures r.weekData == Some(data) && r.(weekData := s.weekData) == s
  {
    s.(weekData := Some(data))
  }

  /** `clear`. */
  function Clear(s: PregnancyState): (r: PregnancyState)
    ensures r.profile.None? && r.weekData.None?
  {
    InitialState
  }

  /** `clear` forgets everything: from any state it gives the store's
      initial values; there is no profile, so recalculating changes
      nothing, and clearing again changes nothing. */
  lemma ClearIsQuiescent(s: PregnancyState, t: PregnancyState, diff: string -> Option<int>)
    ensures Clear(s) == Clear(t) == InitialState
    ensures CalculateCurrentWeek(Clear(s), diff) == Clear(s)
    ensures Clear(Clear(s)) == Clear(s)
  {
  }
}
