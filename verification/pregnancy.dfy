/** Pregnancy calendar arithmetic (app/src/lib/pregnancy.ts). Dates enter as
    whole days: `daysUntilDue` is the day difference between the due date
    and today, which the source reads from the clock. */
module Pregnancy {
  import opened Js

  const PregnancyWeeks: int := 40
  const DaysPerWeek: int := 7
  const TotalPregnancyDays: int := 280

  type Trimester = t: int | 1 <= t <= 3 witness 1

  /** `getTrimester`: weeks up to 13 are the first trimester, up to 27 the
      second, the rest the third. */
  function GetTrimester(week: int): (t: Trimester)
    ensures t == 1 <==> week <= 13
    ensures t == 3 <==> week > 27
  {
    if week <= 13 then 1
    else if week <= 27 then 2
    else 3
  }

  lemma TrimesterMonotone(a: int, b: int)
    requires a <= b
    ensures GetTrimester(a) <= GetTrimester(b)
  {
  }

  /** `getTrimesterName`. */
  function GetTrimesterName(t: Trimester): string {
    if t == 1 then "孕早期" else if t == 2 then "孕中期" else "孕晚期"
  }

  /** Each trimester has its own name. */
  lemma TrimesterNamesDistinct(t: Trimester, u: Trimester)
    ensures GetTrimesterName(t) == GetTrimesterName(u) <==> t == u
  {
    if t != u {
      assert GetTrimesterName(t)[1] != GetTrimesterName(u)[1];
    }
  }

  datatype BabySize = BabySize(size: string, weight: string, comparison: string)

  /** `BABY_SIZE_COMPARISONS`, week 1 at index 0. */
  const BabySizes: seq<BabySize> := [
    BabySize("0.1mm", "-", "一粒尘埃"),
    BabySize("0.2mm", "-", "一粒罂粟籽"),
    BabySize("0.3mm", "-", "一粒芝麻"),
    BabySize("1mm", "-", "一粒罂粟籽"),
    BabySize("2mm", "-", "一粒芝麻"),
    BabySize("6mm", "1g", "一颗扁豆"),
    BabySize("1cm", "1g", "一颗蓝莓"),
    BabySize("1.6cm", "1g", "一颗覆盆子"),
    BabySize("2.3cm", "2g", "一颗樱桃"),
    BabySize("3.1cm", "4g", "一颗草莓"),
    BabySize("4.1cm", "7g", "一颗无花果"),
    BabySize("5.4cm", "14g", "一颗青柠"),
    BabySize("7.4cm", "23g", "一个柠檬"),
    BabySize("8.7cm", "43g", "一个桃子"),
    BabySize("10.1cm", "70g", "一个苹果"),
    BabySize("11.6cm", "100g", "一个牛油果"),
    BabySize("13cm", "140g", "一个石榴"),
    BabySize("14.2cm", "190g", "一个甜椒"),
    BabySize("15.3cm", "240g", "一个芒果"),
    BabySize("16.4cm", "300g", "一根香蕉"),
    BabySize("26.7cm", "360g", "一根胡萝卜"),
    BabySize("27.8cm", "430g", "一个木瓜"),
    BabySize("28.9cm", "500g", "一个大芒果"),
    BabySize("30cm", "600g", "一根玉米棒"),
    BabySize("34.6cm", "660g", "一个大头菜"),
    BabySize("35.6cm", "760g", "一颗生菜"),
    BabySize("36.6cm", "875g", "一颗花椰菜"),
    BabySize("37.6cm", "1kg", "一颗茄子"),
    BabySize("38.6cm", "1.15kg", "一颗南瓜"),
    BabySize("39.9cm", "1.3kg", "一颗大白菜"),
    BabySize("41.1cm", "1.5kg", "一个椰子"),
    BabySize("42.4cm", "1.7kg", "一颗哈密瓜"),
    BabySize("43.7cm", "1.9kg", "一个菠萝"),
    BabySize("45cm", "2.1kg", "一个哈密瓜"),
    BabySize("46.2cm", "2.4kg", "一个蜜瓜"),
    BabySize("47.4cm", "2.6kg", "一颗罗马生菜"),
    BabySize("48.6cm", "2.9kg", "一颗瑞士甜菜"),
    BabySize("49.8cm", "3kg", "一颗韭葱"),
    BabySize("50.7cm", "3.3kg", "一个小西瓜"),
    BabySize("51.2cm", "3.5kg", "一个小南瓜")
  ]

  /** `getBabySizeComparison`: the week is clamped to 1..40 first, so every
      integer week has an entry and the week-20 fallback is never taken. */
  function GetBabySizeComparison(week: int): (r: BabySize)
    ensures 1 <= week <= PregnancyWeeks ==> r == BabySizes[week - 1]
    ensures week < 1 ==> r == BabySizes[0]
    ensures week > PregnancyWeeks ==> r == BabySizes[PregnancyWeeks - 1]
  {
    BabySizes[Clamp(week, 1, PregnancyWeeks) - 1]
  }

  /** `formatWeekDisplay`. */
  function FormatWeekDisplay(week: int, day: int): string {
    "第" + IntToString(week) + "周第" + IntToString(day) + "天"
  }

  /** A string with `mark` after a mark-free head splits there in one way
      only. */
  lemma SplitAtMark(a: string, x: string, b: string, y: string, mark: char)
    requires forall i :: 0 <= i < |a| ==> a[i] != mark
    requires forall i :: 0 <= i < |b| ==> b[i] != mark
    ensures a + [mark] + x == b + [mark] + y ==> a == b && x == y
  {
    var s, s2 := a + [mark] + x, b + [mark] + y;
    if |a| != |b| {
      var k := if |a| < |b| then |a| else |b|;
      assert s[k] != s2[k];
    } else if s == s2 {
      assert a == s[..|a|] == b;
      assert x == s[|a| + 1..] == y;
    }
  }

  /** `第{w}周第{d}天` splits back into `w` and `d` when `w` holds no `周`. */
  lemma DisplayParts(w: string, d: string, w2: string, d2: string)
    requires forall i :: 0 <= i < |w| ==> w[i] != '周'
    requires forall i :: 0 <= i < |w2| ==> w2[i] != '周'
    requires "第" + w + "周第" + d + "天" == "第" + w2 + "周第" + d2 + "天"
    ensures w == w2 && d == d2
  {
    var s, s2 := "第" + w + "周第" + d + "天", "第" + w2 + "周第" + d2 + "天";
    var t, t2 := "第" + d + "天", "第" + d2 + "天";
    assert s[1..] == w + ['周'] + t;
    assert s2[1..] == w2 + ['周'] + t2;
    SplitAtMark(w, t, w2, t2, '周');
    assert d == t[1..|t| - 1];
    assert d2 == t2[1..|t2| - 1];
  }

  /** The week display reads back: two displays agree only for the same
      week and day. */
  lemma FormatWeekDisplayInjective(week: int, day: int, week2: int, day2: int)
    requires FormatWeekDisplay(week, day) == FormatWeekDisplay(week2, day2)
    ensures week == week2 && day == day2
  {
    DisplayParts(IntToString(week), IntToString(day), IntToString(week2), IntToString(day2));
    IntToStringInjective(week, week2);
    IntToStringInjective(day, day2);
  }

  /** The integer part of `PregnancyProgress`; `progressPercent` is a
      floating-point display value and is not modelled. */
  datatype Progress = Progress(
    currentWeek: int,
    currentDay: int,
    trimester: Trimester,
    totalDays: nat,
    daysUntilDue: nat,
    gestationalDays: string)

  /** Days elapsed since the last period, as the source computes it. */
  function ElapsedDays(daysUntilDue: int): int {
    TotalPregnancyDays - daysUntilDue
  }

  /** `calculatePregnancyProgress`: week `floor(total / 7) + 1` clamped to
      1..40, day the truncating remainder plus one clamped to 1..7, the
      trimester of the clamped week, and negative counts shown as 0. */
  function CalculatePregnancyProgress(daysUntilDue: int): (r: Progress)
    ensures 1 <= r.currentWeek <= PregnancyWeeks
    ensures 1 <= r.currentDay <= DaysPerWeek
    ensures r.trimester == GetTrimester(r.currentWeek)
    ensures r.totalDays == Max(0, ElapsedDays(daysUntilDue))
    ensures r.daysUntilDue == Max(0, daysUntilDue)
    ensures r.gestationalDays == DayRange(r.currentWeek)
  {
    var totalDays := ElapsedDays(daysUntilDue);
    var currentWeek := FloorDiv(totalDays, DaysPerWeek) + 1;
    var currentDay := Rem(totalDays, DaysPerWeek) + 1;
    var clampedWeek := Clamp(currentWeek, 1, PregnancyWeeks);
    var startDay := (clampedWeek - 1) * DaysPerWeek + 1;
    var endDay := clampedWeek * DaysPerWeek;
    Progress(
      clampedWeek,
      Clamp(currentDay, 1, DaysPerWeek),
      GetTrimester(clampedWeek),
      Max(0, totalDays),
      Max(0, daysUntilDue),
      IntToString(startDay) + "-" + IntToString(endDay))
  }

  /** The `gestationalDays` text for a week: its first and last day, counted
      from 1. */
  function DayRange(week: int): string {
    IntToString((week - 1) * 7 + 1) + "-" + IntToString(week * 7)
  }

  /** Inside the 280-day window the week and day recompose the elapsed
      days exactly. */
  lemma WeekAndDayRecompose(daysUntilDue: int)
    requires 0 <= ElapsedDays(daysUntilDue) < TotalPregnancyDays
    ensures var r := CalculatePregnancyProgress(daysUntilDue);
      && (r.currentWeek - 1) * DaysPerWeek + (r.currentDay - 1) == ElapsedDays(daysUntilDue)
      && (r.currentWeek - 1) * 7 + 1 <= ElapsedDays(daysUntilDue) + 1 <= r.currentWeek * 7
  {
  }

  /** Before the window (due date more than 280 days away) the progress
      reads week 1 day 1; past the due date it stays at week 40. */
  lemma OutsideWindow(daysUntilDue: int)
    ensures daysUntilDue > TotalPregnancyDays ==>
      var r := CalculatePregnancyProgress(daysUntilDue);
      r.currentWeek == 1 && r.currentDay == 1 && r.totalDays == 0
    ensures daysUntilDue <= 0 ==> CalculatePregnancyProgress(daysUntilDue).currentWeek == PregnancyWeeks
  {
  }

  /** As the due date approaches the week never goes back. */
  lemma WeekMonotone(d1: int, d2: int)
    requires d1 >= d2
    ensures CalculatePregnancyProgress(d1).currentWeek <= CalculatePregnancyProgress(d2).currentWeek
  {
  }

  /** `calculateDueDateFromLastPeriod` on day numbers. */
  function CalculateDueDateFromLastPeriod(lastPeriodDay: int): (due: int)
    ensures due - lastPeriodDay == TotalPregnancyDays
  {
    lastPeriodDay + TotalPregnancyDays
  }

  /** `isValidDueDate`: strictly after two weeks ago and strictly before 280
      days from today, `dueDay` and `today` being day numbers. */
  predicate IsValidDueDate(dueDay: int, today: int) {
    today - 14 < dueDay && dueDay < today + TotalPregnancyDays
  }

  /** A due date derived from a last period inside the past 294 days
      (exclusive of today) is accepted, and no other one is. */
  lemma DueDateFromRecentPeriod(lastPeriodDay: int, today: int)
    ensures IsValidDueDate(CalculateDueDateFromLastPeriod(lastPeriodDay), today)
        <==> today - 294 < lastPeriodDay < today
  {
  }

  /** A due date passes validation exactly when it places the progress
      inside the usual range: the elapsed days are between 1 and 293. */
  lemma ValidDueDateElapsed(dueDay: int, today: int)
    ensures IsValidDueDate(dueDay, today) <==> 0 < ElapsedDays(dueDay - today) < 294
  {
  }
}
