/** The dad-growth and achievement tables of the user database
    (app/src/services/db/queries.ts `getDadGrowth`, `addXPEvent`,
    `DEFAULT_ACHIEVEMENTS`, `initAchievements`, `updateAchievementProgress`).
    `datetime('now')` is the `now` parameter. */
module GrowthDb {
  import opened Wrappers
  import opened UserTypes
  import opened Levels
  import opened DadStore
  import opened Sql

  // ---------------------------------------------------------------------
  // XP
  // ---------------------------------------------------------------------

  /** Row 1 of `dad_growth`. */
  datatype GrowthRow = GrowthRow(xp: int, level: int)

  /** The row `INSERT OR IGNORE` puts in place when there is none. */
  const FreshGrowth: GrowthRow := GrowthRow(0, 1)

  datatype XpEvent = XpEvent(id: int, kind: string, refId: Option<int>, delta: int, note: Option<string>)

  /** `xp_events` in rowid order with its AUTOINCREMENT counter. */
  datatype EventTable = EventTable(rows: seq<XpEvent>, lastId: int)

  datatype XpOutcome = XpOutcome(growth: GrowthRow, events: EventTable, id: int)

  /** `addXPEvent`: make sure the growth row exists, log the event, add its
      delta to the XP and store the level the XP reaches; the result is the
      event's id. */
  function AddXpEvent(g: Option<GrowthRow>, events: EventTable, kind: string, delta: int,
                      refId: Option<int>, note: Option<string>): (r: XpOutcome)
    ensures r.growth.xp == g.GetOr(FreshGrowth).xp + delta
    ensures r.growth.level == CalculateLevel(r.growth.xp).level
    ensures r.events.rows == events.rows + [XpEvent(r.id, kind, refId, delta, note)]
    ensures r.id > events.lastId && r.events.lastId == r.id
  {
    var before := g.GetOr(FreshGrowth);
    var xp := before.xp + delta;
    var id := events.lastId + 1;
    StoredLevelAgrees(xp);
    XpOutcome(GrowthRow(xp, StoredLevel(xp)), EventTable(events.rows + [XpEvent(id, kind, refId, delta, note)], id), id)
  }

  /** `getDadGrowth`: XP and level as stored; title and next threshold from
      the XP by the level table's descending scan. */
  function GetDadGrowth(g: Option<GrowthRow>): (r: Option<DadGrowth>)
    ensures r.Some? <==> g.Some?
    ensures r.Some? ==> r.value.xp == g.value.xp && r.value.level == g.value.level
  {
    match g
    case None => None
    case Some(row) =>
      var st := CalculateLevel(row.xp);
      Some(DadGrowth(row.xp, row.level, st.title, st.nextLevelXp))
  }

  /** After an XP event the database reads back exactly the standing the
      in-memory store reaches by adding the same XP to the same total: the
      two copies of the level table agree. */
  lemma DbAgreesWithStore(g: Option<GrowthRow>, events: EventTable, kind: string, delta: int,
                          refId: Option<int>, note: Option<string>, s: DadState)
    requires s.growth.xp == g.GetOr(FreshGrowth).xp
    ensures var read := GetDadGrowth(Some(AddXpEvent(g, events, kind, delta, refId, note).growth));
      read == Some(AddXP(s, delta).growth) && Consistent(read.value)
  {
  }

  /** XP events add up: two events leave the XP of one event with the
      summed delta, and the stored level follows. */
  lemma XpEventsAdd(g: Option<GrowthRow>, events: EventTable, a: int, b: int, kind: string)
    ensures var first := AddXpEvent(g, events, kind, a, None, None);
      var second := AddXpEvent(Some(first.growth), first.events, kind, b, None, None);
      second.growth == AddXpEvent(g, events, kind, a + b, None, None).growth
  {
  }

  // ---------------------------------------------------------------------
  // Achievements
  // ---------------------------------------------------------------------

  /** A row of `achievements`. */
  datatype AchievementDef = AchievementDef(
    id: string,
    title: string,
    description: string,
    category: AchievementCategory,
    icon: string,
    points: int,
    target: int)

  /** `DEFAULT_ACHIEVEMENTS`. */
  const DefaultAchievements: seq<AchievementDef> := [
    AchievementDef("first_milestone", "初次记录", "记录第一个里程碑", Connection, "flag", 50, 1),
    AchievementDef("milestone_3", "船长日志", "记录3个里程碑", Connection, "journal", 100, 3),
    AchievementDef("first_letter", "致未来", "写第一封信给宝宝", Connection, "mail", 50, 1),
    AchievementDef("memory_keeper", "记忆守护者", "添加10条回忆", Connection, "images", 150, 10),
    AchievementDef("guardian", "守护者", "添加3个紧急联系人", Care, "shield", 80, 3),
    AchievementDef("calm_pressure", "临危不乱", "完成5次宫缩记录", Care, "pulse", 100, 5),
    AchievementDef("ready_bag", "整装待发", "待产包100%完成", Preparedness, "briefcase", 120, 1),
    AchievementDef("steady_helm", "坚定舵手", "连续7天使用APP", Consistency, "calendar", 150, 7)
  ]

  /** The `id` primary key of `achievements`. */
  function DefId(d: AchievementDef): string {
    d.id
  }

  predicate DefIdsDistinct(defs: seq<AchievementDef>) {
    forall i, j :: 0 <= i < j < |defs| ==> defs[i].id != defs[j].id
  }


  /** One `INSERT OR IGNORE`: the definition is appended unless its id is
      already stored. */
  function InsertOrIgnore(table: seq<AchievementDef>, d: AchievementDef): (r: seq<AchievementDef>)
    ensures |table| <= |r| && forall i :: 0 <= i < |table| ==> r[i] == table[i]
    ensures forall i :: |table| <= i < |r| ==> r[i] == d
    ensures FindKey(r, DefId, d.id).Some?
    ensures DefIdsDistinct(table) ==> DefIdsDistinct(r)
  {
    if FindKey(table, DefId, d.id).Some? then table
    else
      var r := table + [d];
      assert forall i :: 0 <= i < |table| ==> DefId(table[i]) != d.id;
      assert DefId(r[|table|]) == d.id;
      r
  }

  /** `initAchievements`: `INSERT OR IGNORE` of each default in order; a
      stored definition with the same id is kept as it is. */
  function InitAchievements(table: seq<AchievementDef>, defaults: seq<AchievementDef>): (r: seq<AchievementDef>)
    ensures |table| <= |r| && forall i :: 0 <= i < |table| ==> r[i] == table[i]
    ensures forall i :: 0 <= i < |defaults| ==> FindKey(r, DefId, defaults[i].id).Some?
    ensures forall i :: |table| <= i < |r| ==> r[i] in defaults
    ensures DefIdsDistinct(table) ==> DefIdsDistinct(r)
    decreases |defaults|
  {
    if |defaults| == 0 then table
    else
      var d := defaults[0];
      var next := InsertOrIgnore(table, d);
      var r := InitAchievements(next, defaults[1..]);
      assert forall i :: 0 <= i < |table| ==> r[i] == next[i] == table[i];
      assert forall i :: |table| <= i < |next| ==> r[i] == d == defaults[0];
      assert forall i :: |next| <= i < |r| ==> r[i] in defaults[1..];
      var k := FindKey(next, DefId, d.id).value;
      assert r[k] == next[k];
      assert FindKey(r, DefId, d.id).Some?;
      assert forall i :: 1 <= i < |defaults| ==> defaults[i] == defaults[1..][i - 1];
      r
  }

  /** Seeding a second time adds nothing. */
  lemma {:induction false} InitAchievementsIdempotent(table: seq<AchievementDef>, defaults: seq<AchievementDef>)
    requires forall i :: 0 <= i < |defaults| ==> FindKey(table, DefId, defaults[i].id).Some?
    ensures InitAchievements(table, defaults) == table
    decreases |defaults|
  {
    if |defaults| > 0 {
      InitAchievementsIdempotent(table, defaults[1..]);
    }
  }

  /** A row of `user_achievements`; `completed` is the stored 0 or 1. */
  datatype ProgressRow = ProgressRow(id: int, achievementId: string, unlockedAt: Option<string>, progress: int, completed: int)

  datatype ProgressTable = ProgressTable(rows: seq<ProgressRow>, lastId: int)

  /** The `achievement_id` column, unique in `user_achievements`. */
  function ProgressKey(p: ProgressRow): string {
    p.achievementId
  }

  /** The `UNIQUE` constraint on `achievement_id`. */
  predicate ProgressKeysDistinct(rows: seq<ProgressRow>) {
    forall i, j :: 0 <= i < j < |rows| ==> rows[i].achievementId != rows[j].achievementId
  }



  datatype ProgressOutcome = ProgressOutcome(table: ProgressTable, completed: bool)

  function CompletedFlag(b: bool): int {
    if b then 1 else 0
  }

  /** `updateAchievementProgress`: an unknown achievement answers false and
      writes nothing. Otherwise the progress and the completed flag
      (progress at or past the target) are upserted and the flag is the
      answer; an existing row's unlock time is refreshed only when it turns
      from not completed to completed, and a fresh row takes the column
      default, the current time, whatever its flag. */
  function UpdateAchievementProgress(defs: seq<AchievementDef>, t: ProgressTable, id: string,
                                     progress: int, now: string): (r: ProgressOutcome)
    ensures FindKey(defs, DefId, id).None? ==> r == ProgressOutcome(t, false)
    ensures FindKey(defs, DefId, id).Some? ==> r.completed == (progress >= defs[FindKey(defs, DefId, id).value].target)
    ensures FindKey(defs, DefId, id).Some? ==>
      var k := FindKey(r.table.rows, ProgressKey, id);
      && k.Some?
      && r.table.rows[k.value].progress == progress
      && r.table.rows[k.value].completed == CompletedFlag(r.completed)
    ensures |t.rows| <= |r.table.rows| <= |t.rows| + 1
    ensures forall i :: 0 <= i < |t.rows| && t.rows[i].achievementId != id ==> r.table.rows[i] == t.rows[i]
    ensures ProgressKeysDistinct(t.rows) ==> ProgressKeysDistinct(r.table.rows)
  {
    match FindKey(defs, DefId, id)
    case None => ProgressOutcome(t, false)
    case Some(d) =>
      var completed := progress >= defs[d].target;
      var flag := CompletedFlag(completed);
      match FindKey(t.rows, ProgressKey, id)
      case Some(k) =>
        var row := t.rows[k];
        var unlockedAt := if flag == 1 && row.completed == 0 then Some(now) else row.unlockedAt;
        var rows := t.rows[k := row.(progress := progress, completed := flag, unlockedAt := unlockedAt)];
        FindKeyFirst(rows, ProgressKey, id, k);
        ProgressOutcome(t.(rows := rows), completed)
      case None =>
        var nid := t.lastId + 1;
        var rows := t.rows + [ProgressRow(nid, id, Some(now), progress, flag)];
        assert rows[|t.rows|].achievementId == id;
        ProgressOutcome(ProgressTable(rows, nid), completed)
  }

  /** The unlock time of a stored row moves only on the call that completes
      it, and then to the time of that call. */
  lemma UnlockTimeOnTransition(defs: seq<AchievementDef>, t: ProgressTable, id: string, progress: int, now: string)
    requires ProgressKeysDistinct(t.rows)
    requires FindKey(defs, DefId, id).Some? && FindKey(t.rows, ProgressKey, id).Some?
    ensures var k := FindKey(t.rows, ProgressKey, id).value;
      var r := UpdateAchievementProgress(defs, t, id, progress, now);
      && |r.table.rows| == |t.rows|
      && r.table.rows[k].unlockedAt ==
           (if r.completed && t.rows[k].completed == 0 then Some(now) else t.rows[k].unlockedAt)
  {
  }

  /** Reporting the same progress again changes nothing, at any later time. */
  lemma ProgressIdempotent(defs: seq<AchievementDef>, t: ProgressTable, id: string, progress: int,
                           now1: string, now2: string)
    requires ProgressKeysDistinct(t.rows)
    ensures var once := UpdateAchievementProgress(defs, t, id, progress, now1);
      UpdateAchievementProgress(defs, once.table, id, progress, now2) == once
  {
    var once := UpdateAchievementProgress(defs, t, id, progress, now1);
    if FindKey(defs, DefId, id).Some? {
      var k := FindKey(once.table.rows, ProgressKey, id).value;
      assert forall i :: 0 <= i < |once.table.rows| && i != k ==> once.table.rows[i].achievementId != id;
      assert FindKey(once.table.rows, ProgressKey, id) == Some(k);
      assert once.table.rows[k := once.table.rows[k]] == once.table.rows;
    }
  }

  /** A first report below the target still records an unlock time. */
  lemma FreshRowTakesDefaultTime(defs: seq<AchievementDef>, t: ProgressTable, id: string, progress: int, now: string)
    requires FindKey(defs, DefId, id).Some? && FindKey(t.rows, ProgressKey, id).None?
    ensures var r := UpdateAchievementProgress(defs, t, id, progress, now);
      && r.table.rows == t.rows + [ProgressRow(t.lastId + 1, id, Some(now), progress, CompletedFlag(r.completed))]
  {
  }
}
