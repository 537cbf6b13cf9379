/** The assistant's system prompt (app/src/services/ai/context.ts): a fixed
    persona text with the pregnancy status filled in, optionally followed
    by a block of knowledge-base reference lines. */
module Prompt {
  import opened Wrappers
  import opened Js
  import opened Seqs
  import opened KbTypes
  import opened Pregnancy

  /** `PregnancyContext`. The optional `babySize` and `babySizeComparison`
      fields are never read by the prompt builders and are left out. */
  datatype PregnancyContext = PregnancyContext(
    currentWeek: int,
    currentDay: int,
    trimester: Trimester,
    daysUntilDue: int,
    warningSignsThisWeek: Option<seq<string>>)

  /** The warning signs of the context, an absent list read as empty. */
  function WarningSigns(c: PregnancyContext): seq<string> {
    c.warningSignsThisWeek.GetOr([])
  }

  function Bullets(items: seq<string>): (r: seq<string>)
    ensures |r| == |items|
    ensures forall i :: 0 <= i < |items| ==> r[i] == "- " + items[i]
  {
    seq(|items|, i requires 0 <= i < |items| => "- " + items[i])
  }

  const WarningHeader: string := "本周需要注意的危险信号：\n"

  /** The warning-signs block: a header and one bullet per sign, or nothing
      when there are no signs. */
  function WarningSection(c: PregnancyContext): (r: string)
    ensures r == "" <==> |WarningSigns(c)| == 0
    ensures r != "" ==> IsPrefix(WarningHeader, r)
  {
    var signs := WarningSigns(c);
    if |signs| > 0 then
      ConcatEnds(WarningHeader, Join(Bullets(signs), "\n"));
      WarningHeader + Join(Bullets(signs), "\n")
    else ""
  }

  const PersonaHead: string :=
    "你是\"伴生\"，一个专为准爸爸设计的孕期助手。你的角色是可靠的大哥——简洁、专业、给出可行动的建议。\n\n## 当前状态\n- 孕周：第"

  const Principles: string :=
    "\n\n## 回复原则\n"
    + "1. 简洁直接，不说废话。每句话都要有价值。\n"
    + "2. 给出具体可行动的建议，告诉他\"现在就可以做什么\"。\n"
    + "3. 涉及危险信号时，立即给出行动指令，不要犹豫。\n"
    + "4. 语气温暖但不啰嗦，像一个靠谱的老大哥。\n"
    + "5. 用\"你\"称呼用户，用\"她\"称呼他的伴侣。\n"
    + "6. 不要使用emoji，保持专业。\n\n"
    + "## 回复格式\n"
    + "- 如果是简单问题，直接回答。\n"
    + "- 如果涉及症状，先判断紧急程度，再给建议。\n"
    + "- 如果需要多步骤，用数字列表。\n"
    + "- 重要信息可以用\"⚠️\"或\"✅\"标注。"

  /** The status lines: week and day, trimester name, days to the due date
      and the baby-size entry of the week. */
  function StatusLines(c: PregnancyContext): string {
    WeekHead(c) + StatusTail(c)
  }

  /** `{week}周第`: the week number, whose `第` ends the persona text. */
  function WeekHead(c: PregnancyContext): string {
    IntToString(c.currentWeek) + "周第"
  }

  function StatusTail(c: PregnancyContext): string {
    var baby := GetBabySizeComparison(c.currentWeek);
    IntToString(c.currentDay) + "天（" + GetTrimesterName(c.trimester)
    + "）\n- 距离预产期：" + IntToString(c.daysUntilDue)
    + "天\n- 宝宝大小：" + baby.size + "（" + baby.comparison + "，约" + baby.weight + "）\n\n"
  }

  /** The ends of a five-part concatenation whose second part is split. */
  lemma FrameEnds<T>(a: seq<T>, b: seq<T>, c: seq<T>, d: seq<T>, e: seq<T>)
    ensures IsPrefix(a + b, a + (b + c) + d + e)
    ensures IsSuffix(e, a + (b + c) + d + e)
  {
    assert a + (b + c) + d + e == (a + b) + (c + d + e);
    ConcatEnds(a + b, c + d + e);
    ConcatEnds(a + (b + c) + d, e);
  }

  /** `buildSystemPrompt`: the persona text, the week and day straight
      after it, and the reply principles at the end. */
  function BuildSystemPrompt(c: PregnancyContext): (r: string)
    ensures IsPrefix(PersonaHead + WeekHead(c), r)
    ensures IsSuffix(Principles, r)
  {
    FrameEnds(PersonaHead, WeekHead(c), StatusTail(c), WarningSection(c), Principles);
    PersonaHead + StatusLines(c) + WarningSection(c) + Principles
  }

  /** An absent warning list and an empty one give the same prompt; a
      non-empty list only adds text. */
  lemma WarningSectionOnlyWhenSigns(c: PregnancyContext)
    ensures BuildSystemPrompt(c.(warningSignsThisWeek := None))
         == BuildSystemPrompt(c.(warningSignsThisWeek := Some([])))
    ensures |WarningSigns(c)| > 0 <==>
      |BuildSystemPrompt(c)| > |BuildSystemPrompt(c.(warningSignsThisWeek := None))|
  {
    var c0 := c.(warningSignsThisWeek := None);
    assert StatusLines(c0) == StatusLines(c);
    assert WarningSection(c0) == "";
  }

  /** `buildContextSummary`: `第{week}周第{day}天 • {comparison}`. */
  function BuildContextSummary(c: PregnancyContext): (r: string)
    ensures r == FormatWeekDisplay(c.currentWeek, c.currentDay) + " • "
      + BabySizes[Clamp(c.currentWeek, 1, PregnancyWeeks) - 1].comparison
  {
    FormatWeekDisplay(c.currentWeek, c.currentDay) + " • " + GetBabySizeComparison(c.currentWeek).comparison
  }

  datatype Injected = Injected(systemPrompt: string, contextSummary: string)

  /** `injectContext`: the user message is not consulted. */
  function InjectContext(userMessage: string, c: PregnancyContext): (r: Injected)
    ensures r.systemPrompt == BuildSystemPrompt(c) && r.contextSummary == BuildContextSummary(c)
  {
    Injected(BuildSystemPrompt(c), BuildContextSummary(c))
  }

  lemma InjectIgnoresMessage(m1: string, m2: string, c: PregnancyContext)
    ensures InjectContext(m1, c) == InjectContext(m2, c)
  {
  }

  // ------------------------------------------------------ reference lines

  /** An optional segment: the prefix and text, or nothing for empty text. */
  function Segment(prefix: string, text: string): (r: string)
    ensures text == "" ==> r == ""
    ensures text != "" ==> |r| == |prefix| + |text| && r[|prefix|..] == text
  {
    if text == "" then "" else prefix + text
  }

  function FoodHead(item: FoodItem): string {
    "- 【" + item.name + "】安全等级：" + SafetyLevelName(item.safetyLevel)
  }

  /** `formatFood`: the reason and the dad tip are appended only when
      non-empty. */
  function FormatFood(item: FoodItem): (r: string)
    ensures IsPrefix(FoodHead(item), r)
    ensures item.reason == "" && item.dadTip == "" ==> r == FoodHead(item)
    ensures item.dadTip != "" ==> IsSuffix("｜爸提示：" + item.dadTip, r)
    ensures |r| == |FoodHead(item)| + (if item.reason == "" then 0 else 1 + |item.reason|)
                   + (if item.dadTip == "" then 0 else 5 + |item.dadTip|)
  {
    var head := FoodHead(item) + Segment("｜", item.reason);
    var tip := Segment("｜爸提示：", item.dadTip);
    ConcatEnds(FoodHead(item), Segment("｜", item.reason));
    ConcatEnds(head, tip);
    head + tip
  }

  function PathText(p: DecisionPath): string {
    p.condition + "→" + p.action + "(" + UrgencyName(p.urgency) + ")"
  }

  /** The first question, or the empty text when there is none. */
  function FirstQuestion(questions: seq<string>): string {
    if |questions| > 0 then questions[0] else ""
  }

  /** `formatSymptom`: the first question and at most two decision paths. */
  function FormatSymptom(tree: SymptomDecisionTree): string {
    var shown := Take(tree.decisionPaths, 2);
    var paths := seq(|shown|, i requires 0 <= i < |shown| => PathText(shown[i]));
    "- 【" + tree.symptomName + "】首问：" + FirstQuestion(tree.questions) + "｜决策：" + Join(paths, "；")
  }

  /** Questions after the first and paths after the second never reach the
      prompt. */
  lemma SymptomShowsFirstQuestionAndTwoPaths(tree: SymptomDecisionTree, moreQ: seq<string>, moreP: seq<DecisionPath>)
    ensures FormatSymptom(tree) == FormatSymptom(tree.(questions := Take(tree.questions, 1),
                                                     decisionPaths := Take(tree.decisionPaths, 2)))
    ensures |tree.questions| >= 1 && |tree.decisionPaths| >= 2 ==>
      FormatSymptom(tree) == FormatSymptom(tree.(questions := tree.questions + moreQ,
                                                 decisionPaths := tree.decisionPaths + moreP))
  {
    var t2 := tree.(questions := tree.questions + moreQ, decisionPaths := tree.decisionPaths + moreP);
    if |tree.questions| >= 1 && |tree.decisionPaths| >= 2 {
      assert Take(t2.decisionPaths, 2) == Take(tree.decisionPaths, 2);
    }
    assert Take(Take(tree.decisionPaths, 2), 2) == Take(tree.decisionPaths, 2);
  }

  /** `formatEmotional`: the follow-up is appended only when non-empty. */
  function FormatEmotional(s: EmotionalScenario): (r: string)
    ensures s.followUpActions == "" ==> r == "- 【" + s.scenarioName + "】正确回应：" + s.rightResponse
    ensures s.followUpActions != "" ==> IsSuffix("｜后续：" + s.followUpActions, r)
  {
    var head := "- 【" + s.scenarioName + "】正确回应：" + s.rightResponse;
    ConcatEnds(head, Segment("｜后续：", s.followUpActions));
    head + Segment("｜后续：", s.followUpActions)
  }

  /** `formatEmergency`: at most three recognition signs and four immediate
      actions. */
  function FormatEmergency(e: EmergencyProcedure): string {
    "⚠️【紧急：" + e.emergencyName + "】识别：" + Join(Take(e.recognitionSigns, 3), "；")
    + "｜立即执行：" + Join(Take(e.immediateActions, 4), "；")
  }

  lemma EmergencyShowsThreeSignsFourActions(e: EmergencyProcedure)
    ensures FormatEmergency(e) == FormatEmergency(e.(recognitionSigns := Take(e.recognitionSigns, 3),
                                                     immediateActions := Take(e.immediateActions, 4)))
  {
    assert Take(Take(e.recognitionSigns, 3), 3) == Take(e.recognitionSigns, 3);
    assert Take(Take(e.immediateActions, 4), 4) == Take(e.immediateActions, 4);
  }

  // ------------------------------------------------------ augmented prompt

  /** `KbPayload`; an absent list is the empty list, since both are falsy
      under `?.length`. */
  datatype KbPayload = KbPayload(
    foods: seq<FoodItem>,
    symptoms: seq<SymptomDecisionTree>,
    emotional: seq<EmotionalScenario>,
    emergency: Option<EmergencyProcedure>)

  predicate HasKb(p: KbPayload) {
    p.emergency.Some? || |p.foods| > 0 || |p.symptoms| > 0 || |p.emotional| > 0
  }

  const FoodCap: nat := 5
  const SymptomCap: nat := 3
  const EmotionalCap: nat := 3

  function FoodLines(foods: seq<FoodItem>): (r: seq<string>)
    ensures |r| == |foods|
    ensures forall i :: 0 <= i < |foods| ==> r[i] == FormatFood(foods[i])
  {
    seq(|foods|, i requires 0 <= i < |foods| => FormatFood(foods[i]))
  }

  function SymptomLines(trees: seq<SymptomDecisionTree>): (r: seq<string>)
    ensures |r| == |trees|
    ensures forall i :: 0 <= i < |trees| ==> r[i] == FormatSymptom(trees[i])
  {
    seq(|trees|, i requires 0 <= i < |trees| => FormatSymptom(trees[i]))
  }

  function EmotionalLines(scenarios: seq<EmotionalScenario>): (r: seq<string>)
    ensures |r| == |scenarios|
    ensures forall i :: 0 <= i < |scenarios| ==> r[i] == FormatEmotional(scenarios[i])
  {
    seq(|scenarios|, i requires 0 <= i < |scenarios| => FormatEmotional(scenarios[i]))
  }

  function EmergencyLines(e: Option<EmergencyProcedure>): seq<string> {
    if e.Some? then [FormatEmergency(e.value)] else []
  }

  /** The reference lines in the order emergency, foods, symptoms,
      emotional, each kind cut to its cap. */
  function Sections(p: KbPayload): seq<string> {
    EmergencyLines(p.emergency) + FoodLines(Take(p.foods, FoodCap))
    + SymptomLines(Take(p.symptoms, SymptomCap)) + EmotionalLines(Take(p.emotional, EmotionalCap))
  }

  const KbHeader: string := "\n\n## 知识库参考数据\n"

  const KbUsage: string :=
    "\n\n使用说明：\n- 仅基于上述事实回答，勿编造。\n- 若包含紧急信息，先给行动指令，再解释。\n- 无匹配项时按常规知识简洁回答。"

  /** `buildKbAugmentedPrompt`. */
  function BuildKbAugmentedPrompt(c: PregnancyContext, p: KbPayload): (r: string)
    ensures !HasKb(p) ==> r == BuildSystemPrompt(c)
  {
    var base := BuildSystemPrompt(c);
    if !HasKb(p) then base
    else base + KbHeader + Join(Sections(p), "\n") + KbUsage
  }

  /** With reference data, the base prompt is a strict prefix, followed by
      the reference header; the usage directive closes the prompt. */
  lemma AugmentedExtendsBase(c: PregnancyContext, p: KbPayload)
    requires HasKb(p)
    ensures var r := BuildKbAugmentedPrompt(c, p);
      var n := |BuildSystemPrompt(c)|;
      && |r| > n
      && IsPrefix(BuildSystemPrompt(c), r)
      && IsPrefix(KbHeader, r[n..])
      && IsSuffix(KbUsage, r)
  {
    var base := BuildSystemPrompt(c);
    var body := Join(Sections(p), "\n");
    assert BuildKbAugmentedPrompt(c, p) == base + KbHeader + body + KbUsage;
    FourParts(base, KbHeader, body, KbUsage);
  }

  lemma FourParts(a: string, b: string, c: string, d: string)
    requires |b| > 0
    ensures var r := a + b + c + d;
      && |r| > |a| && IsPrefix(a, r) && IsPrefix(b, r[|a|..]) && IsSuffix(d, r)
  {
    var r := a + b + c + d;
    assert r == a + (b + c + d);
    ConcatEnds(a, b + c + d);
    assert r[|a|..] == b + c + d;
    assert b + c + d == b + (c + d);
    ConcatEnds(b, c + d);
    ConcatEnds(a + b + c, d);
  }

  /** Reference lines: at most one emergency line first, then at most five
      food lines, three symptom lines and three emotional lines, each kind
      in payload order. */
  lemma SectionsOrderAndCaps(p: KbPayload)
    ensures var s := Sections(p);
      var e: nat := if p.emergency.Some? then 1 else 0;
      var nf: nat := Min(|p.foods|, FoodCap);
      var ns: nat := Min(|p.symptoms|, SymptomCap);
      var ne: nat := Min(|p.emotional|, EmotionalCap);
      && |s| == e + nf + ns + ne
      && (p.emergency.Some? ==> s[0] == FormatEmergency(p.emergency.value))
      && (forall i :: 0 <= i < nf ==> s[e + i] == FormatFood(p.foods[i]))
      && (forall i :: 0 <= i < ns ==> s[e + nf + i] == FormatSymptom(p.symptoms[i]))
      && (forall i :: 0 <= i < ne ==> s[e + nf + ns + i] == FormatEmotional(p.emotional[i]))
  {
    SectionParts(p);
    FoodSection(p);
    SymptomSection(p);
    EmotionalSection(p);
  }

  /** The four parts of the reference lines and their sizes. */
  lemma SectionParts(p: KbPayload)
    ensures var a := EmergencyLines(p.emergency);
      var f := FoodLines(Take(p.foods, FoodCap));
      var y := SymptomLines(Take(p.symptoms, SymptomCap));
      var m := EmotionalLines(Take(p.emotional, EmotionalCap));
      && Sections(p) == a + f + y + m
      && |a| == (if p.emergency.Some? then 1 else 0)
      && |f| == Min(|p.foods|, FoodCap)
      && |y| == Min(|p.symptoms|, SymptomCap)
      && |m| == Min(|p.emotional|, EmotionalCap)
      && |Sections(p)| == |a| + |f| + |y| + |m|
      && (p.emergency.Some? ==> Sections(p)[0] == FormatEmergency(p.emergency.value))
  {
    var a := EmergencyLines(p.emergency);
    Concat4(a, FoodLines(Take(p.foods, FoodCap)), SymptomLines(Take(p.symptoms, SymptomCap)),
            EmotionalLines(Take(p.emotional, EmotionalCap)));
  }

  lemma FoodSection(p: KbPayload)
    ensures var e := |EmergencyLines(p.emergency)|;
      forall i :: 0 <= i < Min(|p.foods|, FoodCap) ==> Sections(p)[e + i] == FormatFood(p.foods[i])
  {
    var t := Take(p.foods, FoodCap);
    var a, f := EmergencyLines(p.emergency), FoodLines(t);
    var y, m := SymptomLines(Take(p.symptoms, SymptomCap)), EmotionalLines(Take(p.emotional, EmotionalCap));
    Concat4(a, f, y, m);
    forall i | 0 <= i < |f| ensures Sections(p)[|a| + i] == FormatFood(p.foods[i]) {
      assert t[i] == p.foods[i];
    }
  }

  lemma SymptomSection(p: KbPayload)
    ensures var o := |EmergencyLines(p.emergency)| + Min(|p.foods|, FoodCap);
      forall i :: 0 <= i < Min(|p.symptoms|, SymptomCap) ==> Sections(p)[o + i] == FormatSymptom(p.symptoms[i])
  {
    var t := Take(p.symptoms, SymptomCap);
    var a, f := EmergencyLines(p.emergency), FoodLines(Take(p.foods, FoodCap));
    var y, m := SymptomLines(t), EmotionalLines(Take(p.emotional, EmotionalCap));
    Concat4(a, f, y, m);
    forall i | 0 <= i < |y| ensures Sections(p)[|a| + |f| + i] == FormatSymptom(p.symptoms[i]) {
      assert t[i] == p.symptoms[i];
    }
  }

  lemma EmotionalSection(p: KbPayload)
    ensures var o := |EmergencyLines(p.emergency)| + Min(|p.foods|, FoodCap) + Min(|p.symptoms|, SymptomCap);
      forall i :: 0 <= i < Min(|p.emotional|, EmotionalCap) ==> Sections(p)[o + i] == FormatEmotional(p.emotional[i])
  {
    var t := Take(p.emotional, EmotionalCap);
    var a, f := EmergencyLines(p.emergency), FoodLines(Take(p.foods, FoodCap));
    var y, m := SymptomLines(Take(p.symptoms, SymptomCap)), EmotionalLines(t);
    var s := a + f + y + m;
    assert Sections(p) == s;
    assert |f| == Min(|p.foods|, FoodCap) && |y| == Min(|p.symptoms|, SymptomCap);
    forall i | 0 <= i < |m| ensures s[|a| + |f| + |y| + i] == FormatEmotional(p.emotional[i]) {
      assert s[|a| + |f| + |y| + i] == m[i];
      assert t[i] == p.emotional[i];
    }
  }

  /** Where each of four concatenated parts lands. */
  lemma Concat4<T>(a: seq<T>, b: seq<T>, c: seq<T>, d: seq<T>)
    ensures var s := a + b + c + d;
      && |s| == |a| + |b| + |c| + |d|
      && (|a| > 0 ==> s[0] == a[0])
      && (forall i :: 0 <= i < |b| ==> s[|a| + i] == b[i])
      && (forall i :: 0 <= i < |c| ==> s[|a| + |b| + i] == c[i])
      && (forall i :: 0 <= i < |d| ==> s[|a| + |b| + |c| + i] == d[i])
  {
  }

  /** There is reference data exactly when there is at least one line. */
  lemma HasKbIffLines(p: KbPayload)
    ensures HasKb(p) <==> |Sections(p)| > 0
  {
    SectionsOrderAndCaps(p);
  }
}
