/** The knowledge-base intent detector: a priority-ordered keyword and pattern
    classifier over one chat message (emergency, then symptom, then food, then
    emotional; first category that matches wins). */
module Intent {
  import opened Wrappers
  import opened Js
  import opened Seqs

  datatype KbIntent = Food | Symptom | Emotional | Emergency
  datatype Confidence = High | Medium | Low

  datatype IntentResult = IntentResult(intent: Option<KbIntent>, keywords: seq<string>, confidence: Confidence)

  const EmergencyKeywords: seq<string> := [
    "破水", "大出血", "昏倒", "昏迷", "120", "急救", "抽搐",
    "胎动消失", "剧烈腹痛", "晕厥", "失去意识", "高烧不退"
  ]

  const SymptomKeywords: seq<string> := [
    "疼", "痛", "出血", "发烧", "恶心", "呕吐", "宫缩",
    "胎动", "头晕", "水肿", "便秘", "腹泻", "失眠", "瘙痒"
  ]

  const FoodKeywords: seq<string> := ["能吃", "可以吃", "安全吗", "能喝", "孕妇吃", "孕妇能吃", "孕妇能喝"]

  const EmotionalKeywords: seq<string> := [
    "烦躁", "哭", "心情", "情绪", "吵架", "焦虑", "抑郁",
    "害怕", "担心", "压力", "崩溃", "委屈", "生气", "发脾气"
  ]

  /** A regular expression of the shape `head.{gap,}tail`: `head`, then at
      least `gap` characters that are not line terminators, then `tail`. */
  datatype FoodPattern = FoodPattern(head: string, gap: nat, tail: string, name: string)

  const FoodPatterns: seq<FoodPattern> := [
    FoodPattern("能吃", 1, "吗", "能吃X吗"),      // /能吃.+吗/
    FoodPattern("可以吃", 1, "吗", "可以吃X吗"),  // /可以吃.+吗/
    FoodPattern("吃", 1, "安全", "X安全"),        // /吃.+安全/
    FoodPattern("能喝", 1, "吗", "能喝X吗"),      // /能喝.+吗/
    FoodPattern("孕妇", 0, "吃", "孕妇吃"),       // /孕妇.*吃/
    FoodPattern("孕妇", 0, "喝", "孕妇喝")        // /孕妇.*喝/
  ]

  /** `normalize`: trim, then lower-case. */
  function Normalize(text: string): (r: string)
    ensures |r| <= |text|
    ensures r == [] <==> AllWhitespace(text)
    ensures r != [] ==> !IsWhitespace(r[0]) && !IsWhitespace(r[|r| - 1])
  {
    Lower(Trim(text))
  }

  lemma NormalizeEmpty(text: string)
    ensures Normalize(text) == [] <==> AllWhitespace(text)
  {
  }

  // ------------------------------------------------------------- keywords

  /** `matchKeywords`: the list keywords that occur in `text`, in list order. */
  function MatchKeywords(text: string, keywords: seq<string>): (r: seq<string>)
    ensures IsSubsequence(r, keywords)
    ensures forall k :: k in r <==> k in keywords && Contains(text, k)
    ensures Distinct(keywords) ==> Distinct(r)
  {
    if |keywords| == 0 then []
    else
      var rest := MatchKeywords(text, keywords[1..]);
      SubsequenceElements(rest, keywords[1..]);
      assert keywords == [keywords[0]] + keywords[1..];
      if Contains(text, keywords[0]) then [keywords[0]] + rest else rest
  }

  predicate AnyOccurs(text: string, keywords: seq<string>) {
    exists k :: k in keywords && Contains(text, k)
  }

  /** Empty text holds no non-empty keyword. */
  lemma NoneInEmpty(keywords: seq<string>)
    requires forall i :: 0 <= i < |keywords| ==> |keywords[i]| > 0
    ensures !AnyOccurs([], keywords)
  {
  }

  // --------------------------------------------------------- food patterns

  predicate NoLineTerminator(s: string) {
    forall k :: 0 <= k < |s| ==> !IsLineTerminator(s[k])
  }

  /** The regular-expression meaning of a pattern: a `head` occurrence at `i`,
      a `tail` occurrence at `j` at least `gap` characters after it, and no
      line terminator in between. */
  predicate MatchesAt(text: string, p: FoodPattern, i: int, j: int) {
    && OccursAt(text, p.head, i)
    && i + |p.head| + p.gap <= j
    && OccursAt(text, p.tail, j)
    && NoLineTerminator(text[i + |p.head|..j])
  }

  ghost predicate RegexMatches(text: string, p: FoodPattern) {
    exists i, j :: MatchesAt(text, p, i, j)
  }

  /** A `tail` occurrence at least `gap` characters into `s`, reached over
      non-terminator characters only. */
  predicate TailReachable(s: string, gap: nat, tail: string) {
    exists j | 0 <= j <= |s| :: gap <= j && OccursAt(s, tail, j) && NoLineTerminator(s[..j])
  }

  /** The scan `RegExp.prototype.test` performs for this shape: try every
      start position, then walk forward over non-terminators looking for the
      tail. */
  function FindTail(s: string, gap: nat, tail: string): (r: bool)
    ensures r <==> TailReachable(s, gap, tail)
  {
    if gap == 0 && OccursAt(s, tail, 0) then
      assert NoLineTerminator(s[..0]);
      true
    else if |s| == 0 then false
    else if IsLineTerminator(s[0]) then
      TerminatorBlocks(s, gap, tail);
      false
    else
      WalkForward(s, gap, tail);
      FindTail(s[1..], if gap > 0 then gap - 1 else 0, tail)
  }

  /** A line terminator first stops the walk, unless the tail is already
      there. */
  lemma TerminatorBlocks(s: string, gap: nat, tail: string)
    requires |s| > 0 && IsLineTerminator(s[0]) && !(gap == 0 && OccursAt(s, tail, 0))
    ensures !TailReachable(s, gap, tail)
  {
  }

  /** Otherwise the tail is reachable exactly when it is reachable from the
      next character, with one character less of the gap still to cover. */
  lemma WalkForward(s: string, gap: nat, tail: string)
    requires |s| > 0 && !IsLineTerminator(s[0]) && !(gap == 0 && OccursAt(s, tail, 0))
    ensures TailReachable(s, gap, tail) <==> TailReachable(s[1..], if gap > 0 then gap - 1 else 0, tail)
  {
    var g := if gap > 0 then gap - 1 else 0;
    if TailReachable(s[1..], g, tail) {
      var j :| 0 <= j <= |s| - 1 && g <= j && OccursAt(s[1..], tail, j) && NoLineTerminator(s[1..][..j]);
      StepBack(s, gap, tail, j);
    }
    if j :| 0 <= j <= |s| && gap <= j && OccursAt(s, tail, j) && NoLineTerminator(s[..j]) {
      StepOn(s, gap, tail, j);
    }
  }

  /** A tail reachable from the next character is reachable from here. */
  lemma StepBack(s: string, gap: nat, tail: string, j: nat)
    requires |s| > 0 && !IsLineTerminator(s[0])
    requires j <= |s| - 1 && (if gap > 0 then gap - 1 else 0) <= j
    requires OccursAt(s[1..], tail, j) && NoLineTerminator(s[1..][..j])
    ensures TailReachable(s, gap, tail)
  {
    assert s[1..][j..j + |tail|] == s[j + 1..j + 1 + |tail|];
    assert s[..j + 1] == [s[0]] + s[1..][..j];
    assert OccursAt(s, tail, j + 1);
  }

  /** A tail reachable from here, but not at position 0 with no gap left,
      is reachable from the next character. */
  lemma StepOn(s: string, gap: nat, tail: string, j: nat)
    requires |s| > 0 && !(gap == 0 && OccursAt(s, tail, 0))
    requires j <= |s| && gap <= j && OccursAt(s, tail, j) && NoLineTerminator(s[..j])
    ensures TailReachable(s[1..], if gap > 0 then gap - 1 else 0, tail)
  {
    assert j > 0;
    assert s[1..][j - 1..j - 1 + |tail|] == s[j..j + |tail|];
    assert s[1..][..j - 1] == s[1..j];
    assert NoLineTerminator(s[1..][..j - 1]);
    assert OccursAt(s[1..], tail, j - 1);
  }

  /** A pattern match whose head starts at exactly `i`. */
  predicate MatchesFrom(text: string, p: FoodPattern, i: nat)
    requires i <= |text|
  {
    OccursAt(text, p.head, i) && FindTail(text[i + |p.head|..], p.gap, p.tail)
  }

  lemma MatchesFromSound(text: string, p: FoodPattern, i: nat)
    requires i <= |text|
    ensures MatchesFrom(text, p, i) <==> exists j :: MatchesAt(text, p, i, j)
  {
    if MatchesFrom(text, p, i) {
      ReachableToMatch(text, p, i);
    }
    if exists j :: MatchesAt(text, p, i, j) {
      MatchToReachable(text, p, i);
    }
  }

  lemma ReachableToMatch(text: string, p: FoodPattern, i: nat)
    requires OccursAt(text, p.head, i)
    requires TailReachable(text[i + |p.head|..], p.gap, p.tail)
    ensures exists j :: MatchesAt(text, p, i, j)
  {
    var s := text[i + |p.head|..];
    var j :| 0 <= j <= |s| && p.gap <= j && OccursAt(s, p.tail, j) && NoLineTerminator(s[..j]);
    assert s[j..j + |p.tail|] == text[i + |p.head| + j..i + |p.head| + j + |p.tail|];
    assert s[..j] == text[i + |p.head|..i + |p.head| + j];
    assert MatchesAt(text, p, i, i + |p.head| + j);
  }

  lemma MatchToReachable(text: string, p: FoodPattern, i: nat)
    requires exists j :: MatchesAt(text, p, i, j)
    ensures TailReachable(text[i + |p.head|..], p.gap, p.tail)
  {
    var j :| MatchesAt(text, p, i, j);
    var s := text[i + |p.head|..];
    var j' := j - i - |p.head|;
    assert s[j'..j' + |p.tail|] == text[j..j + |p.tail|];
    assert s[..j'] == text[i + |p.head|..j];
  }

  function PatternTestFrom(text: string, p: FoodPattern, i: nat): (r: bool)
    requires i <= |text|
    ensures r <==> exists i', j :: i <= i' && MatchesAt(text, p, i', j)
    decreases |text| - i
  {
    MatchesFromSound(text, p, i);
    if MatchesFrom(text, p, i) then true
    else if i == |text| then
      assert forall i', j :: i <= i' && MatchesAt(text, p, i', j) ==> i' == i;
      false
    else
      var r := PatternTestFrom(text, p, i + 1);
      assert forall i', j :: i <= i' && MatchesAt(text, p, i', j) ==> i + 1 <= i';
      r
  }

  /** `regex.test(text)` for one food pattern. */
  function PatternTest(text: string, p: FoodPattern): (r: bool)
    ensures r <==> RegexMatches(text, p)
  {
    PatternTestFrom(text, p, 0)
  }

  function PatternLabels(text: string, patterns: seq<FoodPattern>): (r: seq<string>)
    ensures forall l :: l in r <==> exists p :: p in patterns && PatternTest(text, p) && p.name == l
  {
    if |patterns| == 0 then []
    else
      assert patterns == [patterns[0]] + patterns[1..];
      (if PatternTest(text, patterns[0]) then [patterns[0].name] else [])
        + PatternLabels(text, patterns[1..])
  }

  lemma NoPatternInEmpty(patterns: seq<FoodPattern>)
    requires forall i :: 0 <= i < |patterns| ==> |patterns[i].head| > 0
    ensures PatternLabels([], patterns) == []
  {
    if |patterns| > 0 {
      assert !RegexMatches([], patterns[0]);
      NoPatternInEmpty(patterns[1..]);
    }
  }

  /** `detectFoodPatterns`: the de-duplicated union of matching food keywords
      and matching pattern labels, or `None` when that union is empty. */
  function DetectFoodPatterns(text: string): (r: Option<(seq<string>, Confidence)>)
    ensures r.None? <==> MatchKeywords(text, FoodKeywords) == [] && PatternLabels(text, FoodPatterns) == []
    ensures r.Some? ==> Distinct(r.value.0) && |r.value.0| > 0
    ensures r.Some? ==> forall l :: l in r.value.0 <==>
              l in MatchKeywords(text, FoodKeywords) || l in PatternLabels(text, FoodPatterns)
    ensures r.Some? ==> (r.value.1 == High <==> |r.value.0| > 1)
    ensures r.Some? ==> r.value.1 != Low
  {
    var keywordMatches := MatchKeywords(text, FoodKeywords);
    var patternMatches := PatternLabels(text, FoodPatterns);
    var combined := Dedup(keywordMatches + patternMatches);
    if |combined| == 0 then None
    else
      assert forall l :: l in combined <==> l in keywordMatches + patternMatches;
      Some((combined, if |combined| > 1 then High else Medium))
  }

  /** The reported keywords keep the order in which they first occur among
      the matching keywords followed by the matching labels, as the
      insertion order of a `Set` does. */
  lemma FoodPatternsInFirstOrder(text: string)
    ensures var all := MatchKeywords(text, FoodKeywords) + PatternLabels(text, FoodPatterns);
      var r := DetectFoodPatterns(text);
      r.Some? ==> r.value.0 == Dedup(all) && InFirstOccurrenceOrder(r.value.0, all)
  {
    DedupOrder(MatchKeywords(text, FoodKeywords) + PatternLabels(text, FoodPatterns));
  }

  // --------------------------------------------------------------- detector

  function Categorize(matches: seq<string>, intent: KbIntent): IntentResult {
    IntentResult(Some(intent), matches, if |matches| > 1 then High else Medium)
  }

  /** `detectKbIntent`. */
  function DetectKbIntent(text: string): (r: IntentResult)
    ensures AllWhitespace(text) ==> r == IntentResult(None, [], Low)
    ensures r.intent.Some? ==> |r.keywords| > 0 && r.confidence != Low
    ensures r.intent.None? ==> r.keywords == [] && r.confidence == Low
  {
    Classify(Normalize(text))
  }

  /** The cascade `detectKbIntent` runs on the normalised message. */
  function Classify(normalized: string): (r: IntentResult)
    ensures normalized == [] ==> r == IntentResult(None, [], Low)
    ensures r.intent.Some? ==> |r.keywords| > 0 && r.confidence != Low
    ensures r.intent.None? ==> r.keywords == [] && r.confidence == Low
  {
    if normalized == [] then IntentResult(None, [], Low)
    else
      var emergency := MatchKeywords(normalized, EmergencyKeywords);
      if |emergency| > 0 then IntentResult(Some(Emergency), emergency, High)
      else
        var symptom := MatchKeywords(normalized, SymptomKeywords);
        if |symptom| > 0 then Categorize(symptom, Symptom)
        else ClassifyLower(normalized)
  }

  /** The cascade below the emergency and symptom tiers: food, then
      emotional, then no intent. */
  function ClassifyLower(normalized: string): (r: IntentResult)
    ensures r.intent != Some(Emergency) && r.intent != Some(Symptom)
    ensures r.intent.Some? ==> |r.keywords| > 0 && r.confidence != Low
    ensures r.intent.None? ==> r.keywords == [] && r.confidence == Low
  {
    match DetectFoodPatterns(normalized)
    case Some((keywords, confidence)) => IntentResult(Some(Food), keywords, confidence)
    case None =>
      var emotional := MatchKeywords(normalized, EmotionalKeywords);
      if |emotional| > 0 then Categorize(emotional, Emotional)
      else IntentResult(None, [], Low)
  }

  // ------------------------------------------------------------ priorities

  lemma MatchIffAny(n: string, keywords: seq<string>)
    ensures |MatchKeywords(n, keywords)| > 0 <==> AnyOccurs(n, keywords)
  {
    var m := MatchKeywords(n, keywords);
    if |m| > 0 {
      assert m[0] in m;
    }
  }

  /** Empty normalised text matches nothing, so the empty-input guard only
      short-cuts what the cascade would conclude anyway. */
  lemma EmptyMatchesNothing()
    ensures !AnyOccurs([], EmergencyKeywords) && !AnyOccurs([], SymptomKeywords)
    ensures !AnyOccurs([], EmotionalKeywords)
    ensures DetectFoodPatterns([]).None?
  {
    NoneInEmpty(EmergencyKeywords);
    NoneInEmpty(SymptomKeywords);
    NoneInEmpty(EmotionalKeywords);
    NoFoodInEmpty();
  }

  lemma NoFoodInEmpty()
    ensures DetectFoodPatterns([]).None?
  {
    FoodListsFilled();
    NoneInEmpty(FoodKeywords);
    MatchIffAny([], FoodKeywords);
    NoPatternInEmpty(FoodPatterns);
  }

  /** No food keyword and no pattern head is empty. */
  lemma FoodListsFilled()
    ensures forall i :: 0 <= i < |FoodKeywords| ==> |FoodKeywords[i]| > 0
    ensures forall i :: 0 <= i < |FoodPatterns| ==> |FoodPatterns[i].head| > 0
  {
  }

  /** An emergency keyword overrides every other category; the keywords
      reported are the emergency ones, with high confidence. */
  lemma {:induction false} EmergencyOverrides(n: string)
    ensures var r := Classify(n);
      && (r.intent == Some(Emergency) <==> AnyOccurs(n, EmergencyKeywords))
      && (r.intent == Some(Emergency) ==>
            r.keywords == MatchKeywords(n, EmergencyKeywords) && r.confidence == High)
  {
    MatchIffAny(n, EmergencyKeywords);
    if n == [] {
      NoneInEmpty(EmergencyKeywords);
    }
  }

  /** Symptom wins exactly when no emergency keyword and some symptom
      keyword occur; confidence is high for more than one match. */
  lemma {:induction false} SymptomSecond(n: string)
    ensures var r := Classify(n);
      && (r.intent == Some(Symptom) <==>
            !AnyOccurs(n, EmergencyKeywords) && AnyOccurs(n, SymptomKeywords))
      && (r.intent == Some(Symptom) ==>
            r.keywords == MatchKeywords(n, SymptomKeywords)
            && (r.confidence == High <==> |r.keywords| > 1))
  {
    NoneInEmpty(EmergencyKeywords);
    NoneInEmpty(SymptomKeywords);
    MatchIffAny(n, EmergencyKeywords);
    MatchIffAny(n, SymptomKeywords);
  }

  /** Food wins exactly when neither higher tier matches and the food
      detector finds something; its keywords and confidence are passed on. */
  lemma FoodThird(n: string)
    ensures var r := Classify(n);
      && (r.intent == Some(Food) <==>
            !AnyOccurs(n, EmergencyKeywords) && !AnyOccurs(n, SymptomKeywords)
            && DetectFoodPatterns(n).Some?)
      && (r.intent == Some(Food) ==> (r.keywords, r.confidence) == DetectFoodPatterns(n).value)
  {
    if AnyOccurs(n, EmergencyKeywords) || AnyOccurs(n, SymptomKeywords) {
      StopsAbove(n);
    } else if n == [] {
      NoFoodInEmpty();
    } else {
      FallThrough(n);
      LowerTiers(n);
    }
  }

  /** Emotional is the last resort before no intent at all. */
  lemma EmotionalLast(n: string)
    ensures var r := Classify(n);
      && (r.intent == Some(Emotional) <==>
            !AnyOccurs(n, EmergencyKeywords) && !AnyOccurs(n, SymptomKeywords)
            && DetectFoodPatterns(n).None? && AnyOccurs(n, EmotionalKeywords))
      && (r.intent == Some(Emotional) ==>
            r.keywords == MatchKeywords(n, EmotionalKeywords)
            && (r.confidence == High <==> |r.keywords| > 1))
      && (r.intent == None <==>
            !AnyOccurs(n, EmergencyKeywords) && !AnyOccurs(n, SymptomKeywords)
            && DetectFoodPatterns(n).None? && !AnyOccurs(n, EmotionalKeywords))
  {
    if AnyOccurs(n, EmergencyKeywords) || AnyOccurs(n, SymptomKeywords) {
      StopsAbove(n);
    } else if n == [] {
      NoneInEmpty(EmotionalKeywords);
      NoFoodInEmpty();
    } else {
      FallThrough(n);
      LowerTiers(n);
    }
  }

  /** With neither an emergency nor a symptom keyword, the cascade falls
      through to its lower tiers. */
  lemma FallThrough(n: string)
    requires n != [] && !AnyOccurs(n, EmergencyKeywords) && !AnyOccurs(n, SymptomKeywords)
    ensures Classify(n) == ClassifyLower(n)
  {
    MatchIffAny(n, EmergencyKeywords);
    MatchIffAny(n, SymptomKeywords);
  }

  /** With either, it stops above them. */
  lemma StopsAbove(n: string)
    requires AnyOccurs(n, EmergencyKeywords) || AnyOccurs(n, SymptomKeywords)
    ensures Classify(n).intent == Some(Emergency) || Classify(n).intent == Some(Symptom)
  {
    EmergencyOverrides(n);
    SymptomSecond(n);
  }

  /** The lower tiers: food when the food detector finds something, else
      emotional when an emotional keyword occurs, else no intent. */
  lemma LowerTiers(n: string)
    ensures var r := ClassifyLower(n);
      && (r.intent == Some(Food) <==> DetectFoodPatterns(n).Some?)
      && (r.intent == Some(Food) ==> (r.keywords, r.confidence) == DetectFoodPatterns(n).value)
      && (r.intent == Some(Emotional) <==> DetectFoodPatterns(n).None? && AnyOccurs(n, EmotionalKeywords))
      && (r.intent == Some(Emotional) ==>
            r.keywords == MatchKeywords(n, EmotionalKeywords)
            && (r.confidence == High <==> |r.keywords| > 1))
      && (r.intent == None <==> DetectFoodPatterns(n).None? && !AnyOccurs(n, EmotionalKeywords))
  {
    MatchIffAny(n, EmotionalKeywords);
  }

  /** "Waters have broken; may she still eat crab?": a message naming both
      an emergency and a food question. */
  const CrabQuestion: string := "破水后还能吃螃蟹吗"

  /** The question is already normalised: no blanks at either end and
      no ASCII capitals. */
  lemma CrabQuestionNormal()
    ensures Normalize(CrabQuestion) == CrabQuestion
  {
    var s := CrabQuestion;
    TrimUnblanked(s);
    forall i | 0 <= i < |s| ensures !('A' <= s[i] <= 'Z') {
      assert s[i] as int > 'z' as int;
    }
    LowerUncapitalised(s);
  }

  /** It is routed as an emergency, not as a food question. */
  lemma EmergencyBeatsFood()
    ensures DetectKbIntent(CrabQuestion).intent == Some(Emergency)
    ensures Classify(CrabQuestion).intent == Some(Emergency)
  {
    var s := CrabQuestion;
    assert OccursAt(s, EmergencyKeywords[0], 0);
    assert Contains(s, EmergencyKeywords[0]);
    EmergencyOverrides(s);
    CrabQuestionNormal();
  }
}
