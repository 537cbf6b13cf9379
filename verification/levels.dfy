/** The dad-growth level table. `LEVELS` (app/src/state/dadStore.ts) gives
    each level its title and XP threshold; the user database repeats the
    same thresholds as a bare list when it recomputes the stored level
    (app/src/services/db/queries.ts, `addXPEvent`) and the same table when
    it derives the title (`getDadGrowth`). */
module Levels {
  import opened Wrappers

  datatype LevelInfo = LevelInfo(level: int, title: string, xp: int)

  /** `LEVELS`. */
  const LevelTable: seq<LevelInfo> := [
    LevelInfo(1, "预备队员", 0),
    LevelInfo(2, "后勤保障", 100),
    LevelInfo(3, "护航专员", 300),
    LevelInfo(4, "核心指挥", 600),
    LevelInfo(5, "超级奶爸", 1000)
  ]

  /** The `nextLevelXp` shown at the top level. */
  const TopNextXp: int := 99999

  datatype Standing = Standing(level: int, title: string, nextLevelXp: int)

  /** Level index `i` is reached by `xp`. */
  predicate Reached(xp: int, i: int) {
    0 <= i < |LevelTable| && LevelTable[i].xp <= xp
  }

  /** The descending scan of `calculateLevel`, from index `i` down to 0:
      the first index whose threshold `xp` reaches. */
  function ScanDown(xp: int, i: int): (r: Option<nat>)
    requires -1 <= i < |LevelTable|
    ensures r.Some? ==> r.value <= i
    decreases i + 1
  {
    if i < 0 then None
    else if xp >= LevelTable[i].xp then Some(i)
    else ScanDown(xp, i - 1)
  }

  /** The scan finds the greatest reached index at or below `i`. */
  lemma {:induction false} ScanDownGreatest(xp: int, i: int)
    requires -1 <= i < |LevelTable|
    ensures ScanDown(xp, i).Some? ==>
      && Reached(xp, ScanDown(xp, i).value)
      && forall j :: ScanDown(xp, i).value < j <= i ==> !Reached(xp, j)
    ensures ScanDown(xp, i).None? ==> forall j :: 0 <= j <= i ==> !Reached(xp, j)
  {
    if i >= 0 && xp < LevelTable[i].xp {
      ScanDownGreatest(xp, i - 1);
    }
  }

  /** `calculateLevel`. */
  function CalculateLevel(xp: int): (r: Standing)
    ensures 1 <= r.level <= |LevelTable|
    ensures r.title == LevelTable[r.level - 1].title
    ensures r.level < |LevelTable| ==> r.nextLevelXp == LevelTable[r.level].xp
    ensures r.level == |LevelTable| ==> r.nextLevelXp == TopNextXp
  {
    match ScanDown(xp, |LevelTable| - 1)
    case Some(i) =>
      Standing(LevelTable[i].level, LevelTable[i].title,
               if i + 1 < |LevelTable| then LevelTable[i + 1].xp else TopNextXp)
    case None => Standing(1, "预备队员", 100)
  }

  /** The reference reading: the level is one more than the number of
      thresholds above the first that `xp` reaches, the title is that
      level's, and the next threshold is the first one `xp` has not
      reached. A negative `xp` reaches none and reads as level 1. */
  lemma CalculateLevelSpec(xp: int)
    ensures var r := CalculateLevel(xp);
      && 1 <= r.level <= 5
      && r.title == LevelTable[r.level - 1].title
      && (xp < 0 ==> r == Standing(1, "预备队员", 100))
      && (xp >= 0 ==> LevelTable[r.level - 1].xp <= xp)
      && (r.level < 5 ==> xp < LevelTable[r.level].xp && r.nextLevelXp == LevelTable[r.level].xp)
      && (r.level == 5 ==> r.nextLevelXp == TopNextXp)
  {
    ScanDownGreatest(xp, |LevelTable| - 1);
  }

  /** More XP never lowers the level. */
  lemma LevelMonotone(a: int, b: int)
    requires a <= b
    ensures CalculateLevel(a).level <= CalculateLevel(b).level
  {
    CalculateLevelSpec(a);
    CalculateLevelSpec(b);
  }

  /** Below the top threshold the next threshold is still ahead. */
  lemma NextIsAhead(xp: int)
    requires xp < 1000
    ensures CalculateLevel(xp).nextLevelXp > xp
  {
    CalculateLevelSpec(xp);
  }

  /** The bare thresholds `addXPEvent` scans. */
  const XpThresholds: seq<int> := [0, 100, 300, 600, 1000]

  /** `addXPEvent`'s level loop: the largest `i + 1` whose threshold `xp`
      reaches, scanning down from index `i`; 1 when none is reached. */
  function StoredLevelFrom(xp: int, i: int): (level: int)
    requires -1 <= i < |XpThresholds|
    decreases i + 1
  {
    if i < 0 then 1
    else if xp >= XpThresholds[i] then i + 1
    else StoredLevelFrom(xp, i - 1)
  }

  function StoredLevel(xp: int): int {
    StoredLevelFrom(xp, |XpThresholds| - 1)
  }

  lemma {:induction false} StoredLevelFromAgrees(xp: int, i: int)
    requires -1 <= i < |LevelTable|
    ensures StoredLevelFrom(xp, i) == (if ScanDown(xp, i).Some? then ScanDown(xp, i).value + 1 else 1)
  {
    if i >= 0 && xp < XpThresholds[i] {
      StoredLevelFromAgrees(xp, i - 1);
    }
  }

  /** The level the database stores after an XP event is the level the
      in-memory store computes for the same XP. */
  lemma StoredLevelAgrees(xp: int)
    ensures StoredLevel(xp) == CalculateLevel(xp).level
  {
    StoredLevelFromAgrees(xp, |LevelTable| - 1);
    ScanDownGreatest(xp, |LevelTable| - 1);
  }
}
