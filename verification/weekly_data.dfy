/** The static 40-week table (app/src/data/weeklyData.ts) and its two
    lookups. Each entry keeps its week, trimester, the baby-size comparison
    and the tip of the week; the numeric sizes, symptom lists, warning signs
    and daily actions are display data and are not modelled. */
module WeeklyData {
  import opened Wrappers
  import opened Pregnancy

  datatype WeekEntry = WeekEntry(week: int, trimester: Trimester, comparison: string, tip: string)

  /** `WEEKLY_DATA`. */
  const WeeklyTable: seq<WeekEntry> := [
    WeekEntry(1, 1, "还只是个想法", "从今天开始，叶酸就是最重要的营养素"),
    WeekEntry(2, 1, "一颗等待成熟的卵子", "放松比焦虑更有助于受孕"),
    WeekEntry(3, 1, "一个微小的细胞", "此刻可能正在发生奇迹，但你们还不知道"),
    WeekEntry(4, 1, "一颗芝麻", "着床期要格外温柔，避免剧烈运动"),
    WeekEntry(5, 1, "一颗小米粒", "验孕阳性的那一刻，你就是爸爸了"),
    WeekEntry(6, 1, "一颗扁豆", "这周你能做的最重要的事：什么都别说，就陪着她"),
    WeekEntry(7, 1, "一颗蓝莓", "看到第一次胎心，是最好的安心剂"),
    WeekEntry(8, 1, "一颗覆盆子", "她越难受，你越耐心，这是此阶段最好的支持"),
    WeekEntry(9, 1, "一颗樱桃", "按时做产检是最直接的爱护"),
    WeekEntry(10, 1, "一颗大草莓", "提前把NT预约搞定，这是给她的安全感"),
    WeekEntry(11, 1, "一颗无花果", "把NT细节安排好，任何恐慌都能被准备化解"),
    WeekEntry(12, 1, "一颗李子", "这周是里程碑——流产风险大幅下降"),
    WeekEntry(13, 2, "一个小桃子", "第二孕期开始了——保持稳定，不要让支持松懈"),
    WeekEntry(14, 2, "一个柠檬", "用你的声音——宝宝可能开始听到了"),
    WeekEntry(15, 2, "一个苹果", "现在就预约大排畸——名额很快满"),
    WeekEntry(16, 2, "一个牛油果", "胎动是分水岭。如果她今天感受到了，记录下来"),
    WeekEntry(17, 2, "一个萝卜", "保持晚上安静，让她能感受胎动"),
    WeekEntry(18, 2, "一个红薯", "在大排畸时全神贯注——倾听并记笔记"),
    WeekEntry(19, 2, "一个芒果", "重视她对胎动的更新——你的关注带来安心"),
    WeekEntry(20, 2, "一根香蕉", "恭喜过半了！大排畸通过是巨大的胜利"),
    WeekEntry(21, 2, "一捆胡萝卜", "姿势和枕头是这周最好的工具"),
    WeekEntry(22, 2, "一个西葫芦", "每晚抬高她的腿——小习惯能缓解水肿"),
    WeekEntry(23, 2, "一个大葡萄柚", "开始每晚对宝宝说话的仪式"),
    WeekEntry(24, 2, "一根玉米棒", "从这周开始，宝宝能听到你的声音了。每天花5分钟对着肚子说说话"),
    WeekEntry(25, 2, "一个花菜", "糖耐测试很难受。测完后给她准备高蛋白食物"),
    WeekEntry(26, 2, "一把羽衣甘蓝", "不要摔门。宝宝现在能听到大声响会吓一跳"),
    WeekEntry(27, 2, "一个大花菜", "黄金期结束。享受第二孕期的最后一周"),
    WeekEntry(28, 3, "一个大茄子", "第三孕期开始了。从现在起，每次产检都要陪同"),
    WeekEntry(29, 3, "一个南瓜", "她可能睡不好。你的理解比任何建议都重要"),
    WeekEntry(30, 3, "一颗大白菜", "她的肺被挤压了。让她慢慢来"),
    WeekEntry(31, 3, "一个椰子", "汽车座椅现在就装好，临产时你没时间"),
    WeekEntry(32, 3, "一颗哈密瓜", "现在开始，随时可能有情况。保持手机畅通"),
    WeekEntry(33, 3, "一个菠萝", "她可能开始焦虑分娩。倾听她的担忧"),
    WeekEntry(34, 3, "一个哈密瓜", "现在开始，每天数胎动变得更重要"),
    WeekEntry(35, 3, "一个蜜瓜", "每周产检开始了。每次都要陪同"),
    WeekEntry(36, 3, "一颗罗马生菜", "学会区分假性宫缩和真宫缩"),
    WeekEntry(37, 3, "一颗瑞士甜菜", "足月了！从现在起，随时可能迎接宝宝"),
    WeekEntry(38, 3, "一颗韭葱", "任何时候都可能接到她的电话。保持警觉"),
    WeekEntry(39, 3, "一个小西瓜", "她可能很焦虑。你的冷静是她最大的支持"),
    WeekEntry(40, 3, "一个小南瓜", "恭喜你，准爸爸！你即将成为真正的爸爸")
  ]

  /** The trimester boundaries the table follows: weeks 1-12, 13-27 and
      28-40. */
  function TableTrimester(week: int): Trimester {
    if week <= 12 then 1 else if week <= 27 then 2 else 3
  }

  /** The table has one entry per week, in order, and its trimester column
      follows the 12/27 boundaries. */
  lemma TableShape()
    ensures |WeeklyTable| == PregnancyWeeks
    ensures forall i :: 0 <= i < |WeeklyTable| ==> WeeklyTable[i].week == i + 1
    ensures forall i :: 0 <= i < |WeeklyTable| ==> WeeklyTable[i].trimester == TableTrimester(i + 1)
  {
  }

  /** Week 13 is second trimester in the table but first trimester for
      `getTrimester`; every other week agrees. */
  lemma Week13Disagrees()
    ensures WeeklyTable[12].week == 13 && WeeklyTable[12].trimester == 2 && GetTrimester(13) == 1
    ensures forall i :: 0 <= i < |WeeklyTable| && i != 12 ==> WeeklyTable[i].trimester == GetTrimester(i + 1)
  {
    TableShape();
  }

  /** `Array.prototype.find` on the week number. */
  function FindWeek(s: seq<WeekEntry>, week: int): (r: Option<WeekEntry>)
    ensures r.Some? ==> r.value in s && r.value.week == week
    ensures r.None? ==> forall i :: 0 <= i < |s| ==> s[i].week != week
  {
    if |s| == 0 then None
    else if s[0].week == week then Some(s[0])
    else FindWeek(s[1..], week)
  }

  /** `getWeekData`. */
  function GetWeekData(week: int): (r: Option<WeekEntry>)
    ensures r.Some? ==> r.value in WeeklyTable && r.value.week == week
  {
    FindWeek(WeeklyTable, week)
  }

  /** Every week 1..40 has its entry, and no other number has one. */
  lemma GetWeekDataTotal(week: int)
    ensures GetWeekData(week).Some? <==> 1 <= week <= PregnancyWeeks
    ensures 1 <= week <= PregnancyWeeks ==> GetWeekData(week) == Some(WeeklyTable[week - 1])
  {
    TableShape();
    if 1 <= week <= PregnancyWeeks {
      var r := GetWeekData(week);
      assert WeeklyTable[week - 1].week == week;
      assert r.Some?;
      var i :| 0 <= i < |WeeklyTable| && WeeklyTable[i] == r.value;
      assert i == week - 1;
    }
  }

  /** `Array.prototype.filter` on the trimester. */
  function FilterTrimester(s: seq<WeekEntry>, t: Trimester): (r: seq<WeekEntry>)
    ensures |r| <= |s|
    ensures forall i :: 0 <= i < |r| ==> r[i] in s && r[i].trimester == t
  {
    if |s| == 0 then []
    else (if s[0].trimester == t then [s[0]] else []) + FilterTrimester(s[1..], t)
  }

  lemma {:induction false} FilterAppend(a: seq<WeekEntry>, b: seq<WeekEntry>, t: Trimester)
    ensures FilterTrimester(a + b, t) == FilterTrimester(a, t) + FilterTrimester(b, t)
  {
    if |a| > 0 {
      assert (a + b)[1..] == a[1..] + b;
      FilterAppend(a[1..], b, t);
    } else {
      assert a + b == b;
    }
  }

  lemma FilterAllOrNone(s: seq<WeekEntry>, t: Trimester)
    ensures (forall i :: 0 <= i < |s| ==> s[i].trimester == t) ==> FilterTrimester(s, t) == s
    ensures (forall i :: 0 <= i < |s| ==> s[i].trimester != t) ==> FilterTrimester(s, t) == []
  {
    if forall i :: 0 <= i < |s| ==> s[i].trimester == t {
      FilterAll(s, t);
    }
    if forall i :: 0 <= i < |s| ==> s[i].trimester != t {
      FilterNone(s, t);
    }
  }

  lemma {:induction false} FilterAll(s: seq<WeekEntry>, t: Trimester)
    requires forall i :: 0 <= i < |s| ==> s[i].trimester == t
    ensures FilterTrimester(s, t) == s
  {
    if |s| > 0 {
      assert forall i :: 0 <= i < |s| - 1 ==> s[1..][i] == s[i + 1];
      FilterAll(s[1..], t);
      assert s == [s[0]] + s[1..];
    }
  }

  lemma {:induction false} FilterNone(s: seq<WeekEntry>, t: Trimester)
    requires forall i :: 0 <= i < |s| ==> s[i].trimester != t
    ensures FilterTrimester(s, t) == []
  {
    if |s| > 0 {
      assert forall i :: 0 <= i < |s| - 1 ==> s[1..][i] == s[i + 1];
      FilterNone(s[1..], t);
    }
  }

  /** `getWeeksByTrimester`. */
  function GetWeeksByTrimester(t: Trimester): (r: seq<WeekEntry>)
    ensures forall i :: 0 <= i < |r| ==> r[i] in WeeklyTable && r[i].trimester == t
  {
    FilterTrimester(WeeklyTable, t)
  }

  /** The table split at the trimester boundaries. */
  lemma Runs()
    ensures forall i :: 0 <= i < 12 ==> WeeklyTable[..12][i].trimester == 1
    ensures forall i :: 0 <= i < 15 ==> WeeklyTable[12..27][i].trimester == 2
    ensures forall i :: 0 <= i < 13 ==> WeeklyTable[27..][i].trimester == 3
    ensures WeeklyTable == WeeklyTable[..12] + (WeeklyTable[12..27] + WeeklyTable[27..])
  {
    TableShape();
  }

  /** Filtering three single-trimester runs picks out each run. */
  lemma RunsPartition(a: seq<WeekEntry>, b: seq<WeekEntry>, c: seq<WeekEntry>)
    requires forall i :: 0 <= i < |a| ==> a[i].trimester == 1
    requires forall i :: 0 <= i < |b| ==> b[i].trimester == 2
    requires forall i :: 0 <= i < |c| ==> c[i].trimester == 3
    ensures FilterTrimester(a + (b + c), 1) == a
    ensures FilterTrimester(a + (b + c), 2) == b
    ensures FilterTrimester(a + (b + c), 3) == c
  {
    FilterAppend(a, b + c, 1);
    FilterAppend(a, b + c, 2);
    FilterAppend(a, b + c, 3);
    FilterAppend(b, c, 1);
    FilterAppend(b, c, 2);
    FilterAppend(b, c, 3);
    FilterAllOrNone(a, 1);
    FilterAllOrNone(a, 2);
    FilterAllOrNone(a, 3);
    FilterAllOrNone(b, 1);
    FilterAllOrNone(b, 2);
    FilterAllOrNone(b, 3);
    FilterAllOrNone(c, 1);
    FilterAllOrNone(c, 2);
    FilterAllOrNone(c, 3);
  }

  lemma FirstTrimesterRun()
    ensures GetWeeksByTrimester(1) == WeeklyTable[..12]
  {
    Runs();
    RunsPartition(WeeklyTable[..12], WeeklyTable[12..27], WeeklyTable[27..]);
  }

  lemma SecondTrimesterRun()
    ensures GetWeeksByTrimester(2) == WeeklyTable[12..27]
  {
    Runs();
    RunsPartition(WeeklyTable[..12], WeeklyTable[12..27], WeeklyTable[27..]);
  }

  lemma ThirdTrimesterRun()
    ensures GetWeeksByTrimester(3) == WeeklyTable[27..]
  {
    Runs();
    RunsPartition(WeeklyTable[..12], WeeklyTable[12..27], WeeklyTable[27..]);
  }

  /** The three trimester lists are consecutive runs of the table, weeks
      1-12, 13-27 and 28-40, so together they partition it in order. */
  lemma TrimestersPartition()
    ensures GetWeeksByTrimester(1) + (GetWeeksByTrimester(2) + GetWeeksByTrimester(3)) == WeeklyTable
  {
    FirstTrimesterRun();
    SecondTrimesterRun();
    ThirdTrimesterRun();
    Runs();
  }
}
