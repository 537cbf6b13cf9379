/** The timeline view store (app/src/state/timelineStore.ts): which view is
    shown, which week it is focused on, which week card is expanded, and the
    week each view was last left at. */
module Timeline {
  import opened Wrappers
  import opened Js

  datatype ViewMode = Focus | Journey | Grid

  datatype TimelineState = TimelineState(
    viewMode: ViewMode,
    focusedWeek: int,
    expandedWeek: Option<int>,
    lastViewed: map<ViewMode, int>)

  const InitialState: TimelineState := TimelineState(Focus, 1, None, map[])

  /** `clampWeek`: weeks 1 to 40 pass through, others saturate. */
  function ClampWeek(week: int): (r: int)
    ensures 1 <= r <= 40
    ensures 1 <= week <= 40 ==> r == week
    ensures week < 1 ==> r == 1
    ensures week > 40 ==> r == 40
  {
    Max(1, Min(40, week))
  }

  /** Every week the store holds is a real week. */
  predicate Valid(s: TimelineState) {
    && 1 <= s.focusedWeek <= 40
    && forall m :: m in s.lastViewed ==> 1 <= s.lastViewed[m] <= 40
  }

  /** The current view remembers the week it is focused on. */
  predicate Anchored(s: TimelineState) {
    s.viewMode in s.lastViewed && s.lastViewed[s.viewMode] == s.focusedWeek
  }

  /** The anchors of every view but `mode` are as they were. */
  predicate OtherAnchorsKept(s: TimelineState, r: TimelineState, mode: ViewMode) {
    forall m :: m != mode ==>
      (m in r.lastViewed <==> m in s.lastViewed) &&
      (m in s.lastViewed ==> r.lastViewed[m] == s.lastViewed[m])
  }

  /** `setViewMode`: the target week if given, else the view's remembered
      week, else the current focus, clamped; it becomes the focus and the
      view's anchor. */
  function SetViewMode(s: TimelineState, mode: ViewMode, target: Option<int>): (r: TimelineState)
    ensures r.viewMode == mode && Anchored(r)
    ensures target.Some? ==> r.focusedWeek == ClampWeek(target.value)
    ensures target.None? && mode in s.lastViewed ==> r.focusedWeek == ClampWeek(s.lastViewed[mode])
    ensures target.None? && mode !in s.lastViewed ==> r.focusedWeek == ClampWeek(s.focusedWeek)
    ensures OtherAnchorsKept(s, r, mode)
    ensures r.expandedWeek == s.expandedWeek
  {
    var week := ClampWeek(
      if target.Some? then target.value
      else if mode in s.lastViewed then s.lastViewed[mode]
      else s.focusedWeek);
    s.(viewMode := mode, focusedWeek := week, lastViewed := s.lastViewed[mode := week])
  }

  /** `setFocusedWeek`: the clamped week becomes the focus and the current
      view's anchor. */
  function SetFocusedWeek(s: TimelineState, week: int): (r: TimelineState)
    ensures r.viewMode == s.viewMode && Anchored(r)
    ensures r.focusedWeek == ClampWeek(week)
    ensures OtherAnchorsKept(s, r, s.viewMode)
    ensures r.expandedWeek == s.expandedWeek
  {
    var w := ClampWeek(week);
    s.(focusedWeek := w, lastViewed := s.lastViewed[s.viewMode := w])
  }

  /** `setExpandedWeek` stores the week unclamped. */
  function SetExpandedWeek(s: TimelineState, week: Option<int>): (r: TimelineState)
    ensures r.expandedWeek == week && r.(expandedWeek := s.expandedWeek) == s
  {
    s.(expandedWeek := week)
  }

  /** `rememberViewAnchor`: only the anchor of `mode` changes. */
  function RememberViewAnchor(s: TimelineState, mode: ViewMode, week: int): (r: TimelineState)
    ensures mode in r.lastViewed && r.lastViewed[mode] == ClampWeek(week)
    ensures OtherAnchorsKept(s, r, mode)
    ensures r.viewMode == s.viewMode && r.focusedWeek == s.focusedWeek && r.expandedWeek == s.expandedWeek
  {
    s.(lastViewed := s.lastViewed[mode := ClampWeek(week)])
  }

  /** Every action keeps the stored weeks inside 1 to 40. */
  lemma ValidPreserved(s: TimelineState, mode: ViewMode, target: Option<int>, week: int, expanded: Option<int>)
    requires Valid(s)
    ensures Valid(SetViewMode(s, mode, target))
    ensures Valid(SetFocusedWeek(s, week))
    ensures Valid(SetExpandedWeek(s, expanded))
    ensures Valid(RememberViewAnchor(s, mode, week))
  {
    var a := SetViewMode(s, mode, target);
    assert forall m :: m in a.lastViewed ==> 1 <= a.lastViewed[m] <= 40 by {
      forall m | m in a.lastViewed ensures 1 <= a.lastViewed[m] <= 40 {
        if m != mode {
          assert a.lastViewed[m] == s.lastViewed[m];
        }
      }
    }
    var b := SetFocusedWeek(s, week);
    assert forall m :: m in b.lastViewed ==> 1 <= b.lastViewed[m] <= 40 by {
      forall m | m in b.lastViewed ensures 1 <= b.lastViewed[m] <= 40 {
        if m != s.viewMode {
          assert b.lastViewed[m] == s.lastViewed[m];
        }
      }
    }
    var d := RememberViewAnchor(s, mode, week);
    assert forall m :: m in d.lastViewed ==> 1 <= d.lastViewed[m] <= 40 by {
      forall m | m in d.lastViewed ensures 1 <= d.lastViewed[m] <= 40 {
        if m != mode {
          assert d.lastViewed[m] == s.lastViewed[m];
        }
      }
    }
  }

  lemma InitialValid()
    ensures Valid(InitialState)
  {
  }

  /** Switching to another view and back without a target returns to the
      week the first view was focused on. */
  lemma SwitchBackRestoresFocus(s: TimelineState, other: ViewMode)
    requires Valid(s) && Anchored(s) && other != s.viewMode
    ensures var r := SetViewMode(SetViewMode(s, other, None), s.viewMode, None);
      r.viewMode == s.viewMode && r.focusedWeek == s.focusedWeek
  {
    var t := SetViewMode(s, other, None);
    assert t.lastViewed[s.viewMode] == s.focusedWeek;
  }

  /** Entering the current view again without a target changes nothing when
      the view already remembers its focus. */
  lemma SetViewModeIdempotent(s: TimelineState)
    requires Valid(s) && Anchored(s)
    ensures SetViewMode(s, s.viewMode, None) == s
  {
    assert s.lastViewed[s.viewMode := s.focusedWeek] == s.lastViewed;
  }
}
