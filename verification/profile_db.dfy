/** The single-row `profile` table of the user database and the two
    queries on it (app/src/services/db/queries.ts `getProfile`,
    `saveProfile`). Columns keep their raw stored values, so a row written
    by an older version of the app, or by hand, is a row like any other;
    `datetime('now')` is the `now` parameter. */
module ProfileDb {
  import opened Wrappers
  import opened UserTypes

  /** The columns of row 1; `None` is SQL NULL. */
  datatype ProfileRow = ProfileRow(
    dueDate: string,
    partnerName: Option<string>,
    locale: Option<string>,
    measurementUnit: Option<string>,
    notificationsEnabled: Option<int>,
    reminderFrequency: Option<string>,
    createdAt: string,
    updatedAt: string)

  const DefaultLocale: string := "zh-CN"

  function UnitText(u: MeasurementUnit): string {
    match u
    case Metric => "metric"
    case Imperial => "imperial"
  }

  function FrequencyText(f: ReminderFrequency): string {
    match f
    case Daily => "daily"
    case Weekly => "weekly"
    case ImportantOnly => "important_only"
  }

  /** Reading the unit column: only the exact text "imperial" is imperial. */
  function ParseUnit(t: Option<string>): (u: MeasurementUnit)
    ensures u == Imperial <==> t == Some(UnitText(Imperial))
  {
    if t == Some("imperial") then Imperial else Metric
  }

  /** Reading the frequency column: one of the three texts, else daily. */
  function ParseFrequency(t: Option<string>): (f: ReminderFrequency)
    ensures forall g: ReminderFrequency :: t == Some(FrequencyText(g)) ==> f == g
    ensures f != Daily ==> t == Some(FrequencyText(f))
  {
    if t == Some("weekly") then Weekly
    else if t == Some("important_only") then ImportantOnly
    else Daily
  }

  /** `getProfile`: the row, when there is one, read with the fallbacks for
      unknown enum texts, a NULL or empty locale, and any flag other than 1. */
  function GetProfile(row: Option<ProfileRow>): (p: Option<UserProfile>)
    ensures p.Some? <==> row.Some?
    ensures p.Some? ==>
      && p.value.id == 1
      && p.value.dueDate == row.value.dueDate
      && p.value.partnerName == row.value.partnerName
      && p.value.locale != ""
      && (row.value.locale.Some? && row.value.locale.value != "" ==> p.value.locale == row.value.locale.value)
      && (p.value.preferences.notificationsEnabled <==> row.value.notificationsEnabled == Some(1))
  {
    match row
    case None => None
    case Some(r) =>
      var locale := if r.locale.None? || r.locale.value == "" then DefaultLocale else r.locale.value;
      var prefs := Preferences(
        ParseUnit(r.measurementUnit),
        r.notificationsEnabled == Some(1),
        ParseFrequency(r.reminderFrequency));
      Some(UserProfile(1, r.dueDate, r.partnerName, locale, prefs, r.createdAt, r.updatedAt))
  }

  /** The `Partial<UserPreferences>` argument: `None` is an absent field. */
  datatype PreferencesPatch = PreferencesPatch(
    measurementUnit: Option<MeasurementUnit>,
    notificationsEnabled: Option<bool>,
    reminderFrequency: Option<ReminderFrequency>)

  function FlagValue(b: bool): int {
    if b then 1 else 0
  }

  /** `saveProfile`. An existing row gets the due date and the partner name
      (NULL when none is given) unconditionally, each preference only when it
      is given (`COALESCE`), and a new update time; otherwise a row is
      inserted with the defaults metric, notifications on, daily. */
  function SaveProfile(row: Option<ProfileRow>, dueDate: string, partnerName: Option<string>,
                       patch: PreferencesPatch, now: string): (r: ProfileRow)
    ensures r.dueDate == dueDate && r.partnerName == partnerName
    ensures row.Some? ==> r.createdAt == row.value.createdAt && r.locale == row.value.locale
    ensures r.updatedAt == now
  {
    match row
    case Some(stored) =>
      stored.(dueDate := dueDate,
              partnerName := partnerName,
              measurementUnit := if patch.measurementUnit.Some? then Some(UnitText(patch.measurementUnit.value)) else stored.measurementUnit,
              notificationsEnabled := if patch.notificationsEnabled.Some? then Some(FlagValue(patch.notificationsEnabled.value)) else stored.notificationsEnabled,
              reminderFrequency := if patch.reminderFrequency.Some? then Some(FrequencyText(patch.reminderFrequency.value)) else stored.reminderFrequency,
              updatedAt := now)
    case None =>
      ProfileRow(
        dueDate,
        partnerName,
        Some(DefaultLocale),
        Some(UnitText(patch.measurementUnit.GetOr(Metric))),
        Some(FlagValue(patch.notificationsEnabled.GetOr(true))),
        Some(FrequencyText(patch.reminderFrequency.GetOr(Daily))),
        now,
        now)
  }

  /** What a save followed by a read gives back: the due date and partner
      name as saved, every given preference as given, and every preference
      not given as it read before the save, or at its default for a first
      save. */
  lemma SaveThenGet(row: Option<ProfileRow>, dueDate: string, partnerName: Option<string>,
                    patch: PreferencesPatch, now: string)
    ensures var p := GetProfile(Some(SaveProfile(row, dueDate, partnerName, patch, now))).value.preferences;
      var before := if row.Some? then GetProfile(row).value.preferences else Preferences(Metric, true, Daily);
      && p.measurementUnit == patch.measurementUnit.GetOr(before.measurementUnit)
      && p.notificationsEnabled == patch.notificationsEnabled.GetOr(before.notificationsEnabled)
      && p.reminderFrequency == patch.reminderFrequency.GetOr(before.reminderFrequency)
    ensures var q := GetProfile(Some(SaveProfile(row, dueDate, partnerName, patch, now))).value;
      q.dueDate == dueDate && q.partnerName == partnerName && q.updatedAt == now
  {
    var r := SaveProfile(row, dueDate, partnerName, patch, now);
    var p := GetProfile(Some(r)).value.preferences;
    if patch.reminderFrequency.Some? {
      assert r.reminderFrequency == Some(FrequencyText(patch.reminderFrequency.value));
    }
    if row.None? && patch.reminderFrequency.None? {
      assert r.reminderFrequency == Some(FrequencyText(Daily));
    }
  }

  /** Saving the profile as read, with every preference given, leaves a row
      that reads back the same apart from the update time. */
  lemma ResaveIsStable(row: ProfileRow, now: string)
    requires row.locale.Some? && row.locale.value != ""
    ensures var p := GetProfile(Some(row)).value;
      var patch := PreferencesPatch(Some(p.preferences.measurementUnit),
                                    Some(p.preferences.notificationsEnabled),
                                    Some(p.preferences.reminderFrequency));
      GetProfile(Some(SaveProfile(Some(row), p.dueDate, p.partnerName, patch, now)))
        == Some(p.(updatedAt := now))
  {
    SaveThenGet(Some(row), row.dueDate, row.partnerName,
      PreferencesPatch(Some(ParseUnit(row.measurementUnit)), Some(row.notificationsEnabled == Some(1)),
                       Some(ParseFrequency(row.reminderFrequency))), now);
  }
}
