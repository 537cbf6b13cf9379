/** The hospital-bag checklist screen's pure logic
    (app/src/screens/HospitalBagScreen.tsx): grouping the items into sections
    in a fixed category order, collapsing a section, toggling one item,
    resetting all, the progress ratio, and the check that decides whether
    the `ready_bag` achievement is reported. */
module HospitalBag {
  import opened Seqs
  import opened Grouping
  import GrowthDb
  import Sql

  datatype ChecklistItem = ChecklistItem(id: int, category: string, itemName: string, checked: bool)

  datatype Section = Section(title: string, data: seq<ChecklistItem>, checkedCount: nat, totalCount: nat)

  /** The section order; items of any other category are not shown. */
  const SectionOrder: seq<string> := ["妈妈用品", "宝宝用品", "证件资料", "爸爸用品"]

  function CategoryOf(it: ChecklistItem): string {
    it.category
  }

  /** `items.filter(i => i.checked).length`. */
  function CheckedCount(items: seq<ChecklistItem>): (n: nat)
    ensures n <= |items|
    ensures n == |items| <==> forall i :: 0 <= i < |items| ==> items[i].checked
    ensures n == 0 <==> forall i :: 0 <= i < |items| ==> !items[i].checked
  {
    if |items| == 0 then 0
    else
      var rest := CheckedCount(items[1..]);
      assert forall i :: 1 <= i < |items| ==> items[i] == items[1..][i - 1];
      (if items[0].checked then 1 else 0) + rest
  }

  // ---------------------------------------------------------------------
  // Sections
  // ---------------------------------------------------------------------

  /** `collapsed[cat]`: a category never toggled is expanded. */
  predicate IsCollapsed(collapsed: map<string, bool>, category: string) {
    category in collapsed && collapsed[category]
  }

  /** `toggleSection`: flips the category's flag, an absent one to true. */
  function ToggleSection(collapsed: map<string, bool>, category: string): (r: map<string, bool>)
    ensures IsCollapsed(r, category) == !IsCollapsed(collapsed, category)
    ensures forall c :: c != category ==> IsCollapsed(r, c) == IsCollapsed(collapsed, c)
  {
    collapsed[category := !IsCollapsed(collapsed, category)]
  }

  /** The section of one category: the items listed unless it is collapsed,
      the counts over all of its items. */
  function MakeSection(items: seq<ChecklistItem>, collapsed: map<string, bool>, category: string): Section {
    var data := Group(items, CategoryOf, category);
    Section(category, if IsCollapsed(collapsed, category) then [] else data, CheckedCount(data), |data|)
  }

  /** `.map(cat => section)` over a list of categories. */
  function MakeSections(items: seq<ChecklistItem>, collapsed: map<string, bool>, categories: seq<string>): (r: seq<Section>)
    ensures |r| == |categories|
    ensures forall k :: 0 <= k < |r| ==> r[k] == MakeSection(items, collapsed, categories[k])
  {
    seq(|categories|, k requires 0 <= k < |categories| => MakeSection(items, collapsed, categories[k]))
  }

  /** The `sections` memo: the ordered categories that have items, each made
      into its section. */
  function Sections(items: seq<ChecklistItem>, collapsed: map<string, bool>): (r: seq<Section>)
    ensures |r| <= |SectionOrder|
    ensures forall k :: 0 <= k < |r| ==>
      && 0 < r[k].totalCount
      && r[k].checkedCount <= r[k].totalCount
      && (IsCollapsed(collapsed, r[k].title) <==> r[k].data == [])
  {
    var shown := Shown(items, CategoryOf, SectionOrder);
    ShownExact(items, CategoryOf, SectionOrder);
    SubsequenceElements(shown, SectionOrder);
    ShownGroupsNonEmpty(items, CategoryOf, SectionOrder);
    MakeSections(items, collapsed, shown)
  }

  function Titles(sections: seq<Section>): (r: seq<string>)
    ensures |r| == |sections|
    ensures forall k :: 0 <= k < |r| ==> r[k] == sections[k].title
  {
    seq(|sections|, k requires 0 <= k < |sections| => sections[k].title)
  }

  /** The sections are the ordered categories that have at least one item,
      in the fixed order. */
  lemma SectionTitlesExact(items: seq<ChecklistItem>, collapsed: map<string, bool>)
    ensures IsSubsequence(Titles(Sections(items, collapsed)), SectionOrder)
    ensures forall j :: 0 <= j < |SectionOrder| ==>
      (Present(items, CategoryOf, SectionOrder[j]) <==> SectionOrder[j] in Titles(Sections(items, collapsed)))
  {
    ShownExact(items, CategoryOf, SectionOrder);
    assert Titles(Sections(items, collapsed)) == Shown(items, CategoryOf, SectionOrder);
  }

  /** An expanded section lists exactly its category's items, in list
      order; a collapsed one lists none. */
  lemma SectionItemsExact(items: seq<ChecklistItem>, collapsed: map<string, bool>, k: nat)
    requires k < |Sections(items, collapsed)|
    ensures var s := Sections(items, collapsed)[k];
      && (forall i :: 0 <= i < |s.data| ==> s.data[i].category == s.title && s.data[i] in items)
      && (!IsCollapsed(collapsed, s.title) ==> forall i :: 0 <= i < |items| && items[i].category == s.title ==> items[i] in s.data)
      && IsSubsequence(s.data, items)
  {
    var s := Sections(items, collapsed)[k];
    GroupExact(items, CategoryOf, s.title);
  }

  /** Collapsing or expanding a section changes only which items it lists,
      never the sections shown or their counts. */
  lemma CollapseKeepsCounts(items: seq<ChecklistItem>, c1: map<string, bool>, c2: map<string, bool>)
    ensures var a := Sections(items, c1);
      var b := Sections(items, c2);
      && |a| == |b|
      && forall k :: 0 <= k < |a| ==> a[k] == b[k].(data := a[k].data)
  {
  }

  function SumTotal(sections: seq<Section>): int {
    if |sections| == 0 then 0 else sections[0].totalCount + SumTotal(sections[1..])
  }

  function SumChecked(sections: seq<Section>): int {
    if |sections| == 0 then 0 else sections[0].checkedCount + SumChecked(sections[1..])
  }

  function One(it: ChecklistItem): int {
    1
  }

  function CheckedWeight(it: ChecklistItem): int {
    if it.checked then 1 else 0
  }

  lemma {:induction false} LengthIsTotal(xs: seq<ChecklistItem>)
    ensures Total(xs, One) == |xs|
  {
    if |xs| > 0 {
      LengthIsTotal(xs[1..]);
    }
  }

  lemma {:induction false} CheckedCountIsTotal(xs: seq<ChecklistItem>)
    ensures Total(xs, CheckedWeight) == CheckedCount(xs)
  {
    if |xs| > 0 {
      CheckedCountIsTotal(xs[1..]);
    }
  }

  lemma {:induction false} SumsAreGroupTotals(items: seq<ChecklistItem>, collapsed: map<string, bool>, categories: seq<string>)
    ensures SumTotal(MakeSections(items, collapsed, categories)) == GroupTotals(items, CategoryOf, One, categories)
    ensures SumChecked(MakeSections(items, collapsed, categories)) == GroupTotals(items, CategoryOf, CheckedWeight, categories)
  {
    if |categories| > 0 {
      SumsAreGroupTotals(items, collapsed, categories[1..]);
      var g := Group(items, CategoryOf, categories[0]);
      LengthIsTotal(g);
      CheckedCountIsTotal(g);
      var r := MakeSections(items, collapsed, categories);
      assert r[1..] == MakeSections(items, collapsed, categories[1..]);
    }
  }

  /** When every item belongs to one of the four categories, the section
      counts add up to the whole list's: the headers' totals agree with the
      overall progress. */
  lemma SectionCountsCoverList(items: seq<ChecklistItem>, collapsed: map<string, bool>)
    requires forall i :: 0 <= i < |items| ==> items[i].category in SectionOrder
    ensures SumTotal(Sections(items, collapsed)) == |items|
    ensures SumChecked(Sections(items, collapsed)) == CheckedCount(items)
  {
    SectionTotalsCoverList(items, collapsed);
    SectionCheckedCoverList(items, collapsed);
  }

  /** No category is listed twice. */
  lemma SectionOrderDistinct()
    ensures Distinct(SectionOrder)
  {
  }

  lemma SectionTotalsCoverList(items: seq<ChecklistItem>, collapsed: map<string, bool>)
    requires forall i :: 0 <= i < |items| ==> items[i].category in SectionOrder
    ensures SumTotal(Sections(items, collapsed)) == |items|
  {
    var shown := Shown(items, CategoryOf, SectionOrder);
    assert Sections(items, collapsed) == MakeSections(items, collapsed, shown);
    SumsAreGroupTotals(items, collapsed, shown);
    ShownTotals(items, CategoryOf, One, SectionOrder);
    SectionOrderDistinct();
    GroupsPartition(items, CategoryOf, One, SectionOrder);
    LengthIsTotal(items);
  }

  lemma SectionCheckedCoverList(items: seq<ChecklistItem>, collapsed: map<string, bool>)
    requires forall i :: 0 <= i < |items| ==> items[i].category in SectionOrder
    ensures SumChecked(Sections(items, collapsed)) == CheckedCount(items)
  {
    var shown := Shown(items, CategoryOf, SectionOrder);
    assert Sections(items, collapsed) == MakeSections(items, collapsed, shown);
    SumsAreGroupTotals(items, collapsed, shown);
    ShownTotals(items, CategoryOf, CheckedWeight, SectionOrder);
    SectionOrderDistinct();
    GroupsPartition(items, CategoryOf, CheckedWeight, SectionOrder);
    CheckedCountIsTotal(items);
  }

  // ---------------------------------------------------------------------
  // Toggle, reset, progress
  // ---------------------------------------------------------------------

  /** `handleToggle`'s list update: every entry with the tapped item's id
      takes the opposite of the tapped item's flag; nothing else changes. */
  function Toggle(items: seq<ChecklistItem>, item: ChecklistItem): (r: seq<ChecklistItem>)
    ensures |r| == |items|
    ensures forall i :: 0 <= i < |items| && items[i].id != item.id ==> r[i] == items[i]
    ensures forall i :: 0 <= i < |items| && items[i].id == item.id ==>
      r[i].checked == !item.checked && r[i] == items[i].(checked := r[i].checked)
  {
    seq(|items|, i requires 0 <= i < |items| =>
      if items[i].id == item.id then items[i].(checked := !item.checked) else items[i])
  }

  /** Whether `handleToggle` goes on to report `ready_bag`: the updated list
      is non-empty and fully checked. */
  predicate ReportsReadyBag(next: seq<ChecklistItem>) {
    |next| > 0 && CheckedCount(next) == |next|
  }

  /** Tapping an item twice, the second time on its updated copy, restores
      the list when the tapped copy was current. */
  lemma ToggleTwice(items: seq<ChecklistItem>, item: ChecklistItem)
    requires forall i :: 0 <= i < |items| && items[i].id == item.id ==> items[i].checked == item.checked
    ensures Toggle(Toggle(items, item), item.(checked := !item.checked)) == items
  {
  }

  /** Unchecking an item never leads to the report; checking the last
      unchecked item of a list does. */
  lemma ReportOnlyWhenChecking(items: seq<ChecklistItem>, item: ChecklistItem)
    ensures item.checked && (exists i :: 0 <= i < |items| && items[i].id == item.id) ==> !ReportsReadyBag(Toggle(items, item))
    ensures !item.checked && (forall i :: 0 <= i < |items| && items[i].id != item.id ==> items[i].checked) && |items| > 0
      ==> ReportsReadyBag(Toggle(items, item))
  {
    var next := Toggle(items, item);
    if item.checked && (exists i :: 0 <= i < |items| && items[i].id == item.id) {
      var i :| 0 <= i < |items| && items[i].id == item.id;
      assert !next[i].checked;
    }
  }

  /** `handleReset`'s list update: every item unchecked, nothing else
      changed. */
  function Reset(items: seq<ChecklistItem>): (r: seq<ChecklistItem>)
    ensures |r| == |items|
    ensures forall i :: 0 <= i < |items| ==> r[i] == items[i].(checked := false)
    ensures CheckedCount(r) == 0
    ensures |items| > 0 ==> !ReportsReadyBag(r)
  {
    seq(|items|, i requires 0 <= i < |items| => items[i].(checked := false))
  }

  /** The progress bar's ratio, 0 for an empty list. */
  function Progress(items: seq<ChecklistItem>): (r: real)
    ensures 0.0 <= r <= 1.0
    ensures r == 1.0 <==> ReportsReadyBag(items)
    ensures r == 0.0 <==> forall i :: 0 <= i < |items| ==> !items[i].checked
  {
    if |items| > 0 then
      RatioBounds(CheckedCount(items), |items|);
      CheckedCount(items) as real / |items| as real
    else 0.0
  }

  lemma RatioBounds(n: nat, d: nat)
    requires 0 < d && n <= d
    ensures 0.0 <= n as real / d as real <= 1.0
    ensures n as real / d as real == 1.0 <==> n == d
    ensures n as real / d as real == 0.0 <==> n == 0
  {
    var q := n as real / d as real;
    assert q * d as real == n as real;
  }

  /** With the default achievement table, the `ready_bag` report (progress
      1 against target 1) completes the achievement. */
  lemma ReadyBagReportCompletes(t: GrowthDb.ProgressTable, now: string)
    ensures GrowthDb.UpdateAchievementProgress(GrowthDb.DefaultAchievements, t, "ready_bag", 1, now).completed
  {
    var defs := GrowthDb.DefaultAchievements;
    assert defs[6].id == "ready_bag" && defs[6].target == 1;
    assert forall i :: 0 <= i < 6 ==> defs[i].id != "ready_bag";
    Sql.FindKeyFirst(defs, GrowthDb.DefId, "ready_bag", 6);
  }
}
