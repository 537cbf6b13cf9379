/** The summary the achievements screen derives from the achievement list
    (app/src/screens/AchievementsScreen.tsx): the points earned, the number
    completed, and the achievements grouped by category in a fixed order
    with empty categories left out. */
module AchievementsScreen {
  import opened Seqs
  import opened UserTypes
  import opened Grouping
  import DadStore

  /** The section header of each category (`CATEGORY_CONFIG`); the colours
      and icons are presentation only. */
  function CategoryTitle(c: AchievementCategory): string {
    match c
    case Connection => "情感连接"
    case Care => "日常关怀"
    case Preparedness => "待产准备"
    case Consistency => "坚持不懈"
    case Learning => "学习成长"
  }

  const CategoryOrder: seq<AchievementCategory> := [Connection, Care, Preparedness, Consistency, Learning]

  lemma CategoryOrderComplete(c: AchievementCategory)
    ensures Distinct(CategoryOrder) && c in CategoryOrder
  {
  }

  function CategoryOf(a: Achievement): AchievementCategory {
    a.category
  }

  /** What an achievement adds to the points total. */
  function EarnedPoints(a: Achievement): int {
    if a.completed then a.points else 0
  }

  function CompletedWeight(a: Achievement): int {
    if a.completed then 1 else 0
  }

  /** `achievements.filter(a => a.completed).length`. */
  function CompletedCount(achievements: seq<Achievement>): (n: nat)
    ensures n <= |achievements|
    ensures n == 0 <==> forall i :: 0 <= i < |achievements| ==> !achievements[i].completed
    ensures n == |achievements| <==> forall i :: 0 <= i < |achievements| ==> achievements[i].completed
  {
    if |achievements| == 0 then 0
    else
      var rest := CompletedCount(achievements[1..]);
      assert forall i :: 1 <= i < |achievements| ==> achievements[i] == achievements[1..][i - 1];
      CompletedWeight(achievements[0]) + rest
  }

  lemma {:induction false} CompletedCountIsTotal(xs: seq<Achievement>)
    ensures Total(xs, CompletedWeight) == CompletedCount(xs)
  {
    if |xs| > 0 {
      CompletedCountIsTotal(xs[1..]);
    }
  }

  datatype AchievementGroup = AchievementGroup(id: AchievementCategory, title: string, items: seq<Achievement>)

  datatype Summary = Summary(totalPoints: int, completedCount: nat, groups: seq<AchievementGroup>)

  function MakeGroup(achievements: seq<Achievement>, c: AchievementCategory): AchievementGroup {
    AchievementGroup(c, CategoryTitle(c), Group(achievements, CategoryOf, c))
  }

  function MakeGroups(achievements: seq<Achievement>, categories: seq<AchievementCategory>): (r: seq<AchievementGroup>)
    ensures |r| == |categories|
    ensures forall k :: 0 <= k < |r| ==> r[k] == MakeGroup(achievements, categories[k])
  {
    if |categories| == 0 then []
    else [MakeGroup(achievements, categories[0])] + MakeGroups(achievements, categories[1..])
  }

  /** The screen's `useMemo`. */
  function Summarize(achievements: seq<Achievement>): (r: Summary)
    ensures r.completedCount <= |achievements|
    ensures |r.groups| <= |CategoryOrder|
    ensures forall k :: 0 <= k < |r.groups| ==>
      && |r.groups[k].items| > 0
      && r.groups[k].title == CategoryTitle(r.groups[k].id)
      && forall i :: 0 <= i < |r.groups[k].items| ==> r.groups[k].items[i].category == r.groups[k].id
  {
    var shown := Shown(achievements, CategoryOf, CategoryOrder);
    ShownExact(achievements, CategoryOf, CategoryOrder);
    SubsequenceElements(shown, CategoryOrder);
    ShownGroupsNonEmpty(achievements, CategoryOf, CategoryOrder);
    Summary(Total(achievements, EarnedPoints), CompletedCount(achievements), MakeGroups(achievements, shown))
  }

  function GroupId(g: AchievementGroup): AchievementCategory { g.id }

  function GroupIds(groups: seq<AchievementGroup>): seq<AchievementCategory> {
    Map(groups, GroupId)
  }

  /** The groups are the categories that have an achievement, in the fixed
      order, each holding exactly that category's achievements in list
      order. */
  lemma GroupsExact(achievements: seq<Achievement>)
    ensures IsSubsequence(GroupIds(Summarize(achievements).groups), CategoryOrder)
    ensures forall c :: Present(achievements, CategoryOf, c) <==> c in GroupIds(Summarize(achievements).groups)
    ensures forall k :: 0 <= k < |Summarize(achievements).groups| ==>
      var g := Summarize(achievements).groups[k];
      && (forall i :: 0 <= i < |achievements| && achievements[i].category == g.id ==> achievements[i] in g.items)
      && (forall i :: 0 <= i < |g.items| ==> g.items[i].category == g.id)
      && IsSubsequence(g.items, achievements)
  {
    var shown := Shown(achievements, CategoryOf, CategoryOrder);
    var groups := Summarize(achievements).groups;
    SummaryGroupsShown(achievements);
    ShownIffPresent(achievements);
    forall k | 0 <= k < |groups|
      ensures forall i :: 0 <= i < |achievements| && achievements[i].category == groups[k].id ==> achievements[i] in groups[k].items
      ensures forall i :: 0 <= i < |groups[k].items| ==> groups[k].items[i].category == groups[k].id
      ensures IsSubsequence(groups[k].items, achievements)
    {
      assert groups[k] == MakeGroup(achievements, shown[k]);
      GroupExact(achievements, CategoryOf, shown[k]);
    }
  }

  lemma SummaryGroupsShown(achievements: seq<Achievement>)
    ensures var shown := Shown(achievements, CategoryOf, CategoryOrder);
      && Summarize(achievements).groups == MakeGroups(achievements, shown)
      && GroupIds(Summarize(achievements).groups) == shown
  {
    var shown := Shown(achievements, CategoryOf, CategoryOrder);
    var groups := Summarize(achievements).groups;
    assert groups == MakeGroups(achievements, shown);
    assert GroupIds(groups) == shown;
  }

  /** The shown categories are exactly those with an achievement. */
  lemma ShownIffPresent(achievements: seq<Achievement>)
    ensures IsSubsequence(Shown(achievements, CategoryOf, CategoryOrder), CategoryOrder)
    ensures forall c :: Present(achievements, CategoryOf, c) <==> c in Shown(achievements, CategoryOf, CategoryOrder)
  {
    ShownExact(achievements, CategoryOf, CategoryOrder);
    forall c ensures Present(achievements, CategoryOf, c) ==> c in Shown(achievements, CategoryOf, CategoryOrder) {
      CategoryOrderComplete(c);
      var j :| 0 <= j < |CategoryOrder| && CategoryOrder[j] == c;
    }
  }

  function GroupsWeight(groups: seq<AchievementGroup>, w: Achievement -> int): int {
    if |groups| == 0 then 0 else Total(groups[0].items, w) + GroupsWeight(groups[1..], w)
  }

  lemma {:induction false} GroupsWeightIsGroupTotals(achievements: seq<Achievement>, categories: seq<AchievementCategory>, w: Achievement -> int)
    ensures GroupsWeight(MakeGroups(achievements, categories), w) == GroupTotals(achievements, CategoryOf, w, categories)
  {
    if |categories| > 0 {
      GroupsWeightIsGroupTotals(achievements, categories[1..], w);
      var r := MakeGroups(achievements, categories);
      assert r[1..] == MakeGroups(achievements, categories[1..]);
    }
  }

  /** Every achievement is in exactly one group: summed over the groups, the
      points earned and the completed counts are the screen's totals, and
      the group sizes add up to the list's length. */
  lemma GroupsPartitionTotals(achievements: seq<Achievement>)
    ensures GroupsWeight(Summarize(achievements).groups, EarnedPoints) == Summarize(achievements).totalPoints
    ensures GroupsWeight(Summarize(achievements).groups, CompletedWeight) == Summarize(achievements).completedCount
  {
    var shown := Shown(achievements, CategoryOf, CategoryOrder);
    forall i | 0 <= i < |achievements| ensures achievements[i].category in CategoryOrder {
      CategoryOrderComplete(achievements[i].category);
    }
    CategoryOrderComplete(Connection);
    GroupsWeightIsGroupTotals(achievements, shown, EarnedPoints);
    GroupsWeightIsGroupTotals(achievements, shown, CompletedWeight);
    ShownTotals(achievements, CategoryOf, EarnedPoints, CategoryOrder);
    ShownTotals(achievements, CategoryOf, CompletedWeight, CategoryOrder);
    GroupsPartition(achievements, CategoryOf, EarnedPoints, CategoryOrder);
    GroupsPartition(achievements, CategoryOf, CompletedWeight, CategoryOrder);
    CompletedCountIsTotal(achievements);
  }

  /** Unlocking an achievement in the store never lowers the completed
      count, nor the points when no achievement is worth negative points. */
  lemma UnlockNeverLowersSummary(s: DadStore.DadState, id: string, now: string)
    requires forall i :: 0 <= i < |s.achievements| ==> s.achievements[i].points >= 0
    ensures var before := Summarize(s.achievements);
      var after := Summarize(DadStore.UnlockAchievement(s, id, now).achievements);
      after.completedCount >= before.completedCount && after.totalPoints >= before.totalPoints
  {
    var xs := s.achievements;
    var ys := DadStore.UnlockAchievement(s, id, now).achievements;
    TotalMonotone(xs, ys, EarnedPoints);
    TotalMonotone(xs, ys, CompletedWeight);
    CompletedCountIsTotal(xs);
    CompletedCountIsTotal(ys);
  }
}
