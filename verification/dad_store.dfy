/** The in-memory dad-growth store (app/src/state/dadStore.ts): the XP
    standing, the achievement list and the transient "+XP" badge. The 2.5 s
    timer that clears the badge is not modelled. */
module DadStore {
  import opened Wrappers
  import opened UserTypes
  import opened Levels

  datatype DadState = DadState(growth: DadGrowth, achievements: seq<Achievement>, recentXpGain: Option<int>)

  /** `INITIAL_GROWTH`. */
  const InitialGrowth: DadGrowth := DadGrowth(0, 1, "预备队员", 100)

  const InitialState: DadState := DadState(InitialGrowth, [], None)

  /** The level, title and next threshold are the ones `calculateLevel`
      gives for the XP. */
  predicate Consistent(g: DadGrowth) {
    CalculateLevel(g.xp) == Standing(g.level, g.title, g.nextLevelXp)
  }

  lemma InitialConsistent()
    ensures Consistent(InitialGrowth)
  {
    CalculateLevelSpec(0);
  }

  /** `addXP` (state part): the XP grows by the amount, the standing is
      recomputed from the new XP, and the badge shows the amount. */
  function AddXP(s: DadState, amount: int): (r: DadState)
    ensures r.growth.xp == s.growth.xp + amount
    ensures Consistent(r.growth)
    ensures r.recentXpGain == Some(amount)
    ensures r.achievements == s.achievements
  {
    var newXp := s.growth.xp + amount;
    var st := CalculateLevel(newXp);
    s.(growth := DadGrowth(newXp, st.level, st.title, st.nextLevelXp), recentXpGain := Some(amount))
  }

  /** Two gains in a row leave the same standing as one gain of their sum;
      only the badge differs. */
  lemma AddXPAdditive(s: DadState, a: int, b: int)
    ensures AddXP(AddXP(s, a), b).growth == AddXP(s, a + b).growth
    ensures AddXP(AddXP(s, a), b).recentXpGain == Some(b)
  {
  }

  /** A gain never lowers the level. */
  lemma AddXPNeverDemotes(s: DadState, amount: int)
    requires Consistent(s.growth) && amount >= 0
    ensures AddXP(s, amount).growth.level >= s.growth.level
  {
    LevelMonotone(s.growth.xp, s.growth.xp + amount);
  }

  /** `unlockAchievement`: every entry with the id is marked completed with
      the unlock time; all others, and the list length, stay as they were. */
  function UnlockAchievement(s: DadState, id: string, now: string): (r: DadState)
    ensures |r.achievements| == |s.achievements|
    ensures forall i :: 0 <= i < |s.achievements| && s.achievements[i].id == id ==>
      r.achievements[i] == s.achievements[i].(completed := true, unlockedAt := Some(now))
    ensures forall i :: 0 <= i < |s.achievements| && s.achievements[i].id != id ==>
      r.achievements[i] == s.achievements[i]
    ensures r.growth == s.growth && r.recentXpGain == s.recentXpGain
  {
    var xs := s.achievements;
    s.(achievements := seq(|xs|, i requires 0 <= i < |xs| =>
      if xs[i].id == id then xs[i].(completed := true, unlockedAt := Some(now)) else xs[i]))
  }

  /** Unlocking twice at the same time is unlocking once. */
  lemma UnlockIdempotent(s: DadState, id: string, now: string)
    ensures UnlockAchievement(UnlockAchievement(s, id, now), id, now) == UnlockAchievement(s, id, now)
  {
  }
}
