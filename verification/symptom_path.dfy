/** `evaluateSymptomPath` (app/src/services/kb/kbService.ts): given a
    symptom's decision paths and the user's yes/no answers, pick one path.
    The rules run in tiers: EMERGENCY paths first, then CALL_DOCTOR paths,
    then the all-"no" defaults, then the last path. */
module SymptomPath {
  import opened Wrappers
  import opened Js
  import opened KbTypes

  datatype Evaluation = Evaluation(path: Option<DecisionPath>, urgency: Urgency, suggestion: string)

  /** `answers[i] === true`: reading past the end gives `undefined`, which is
      not `true`, so no rule fires and nothing throws. */
  predicate AnswerAt(answers: seq<bool>, i: int) {
    0 <= i < |answers| && answers[i]
  }

  predicate HasAnyYes(answers: seq<bool>) {
    exists i :: 0 <= i < |answers| && answers[i]
  }

  predicate AllNo(answers: seq<bool>) {
    |answers| > 0 && forall i :: 0 <= i < |answers| ==> !answers[i]
  }

  function YesCount(answers: seq<bool>): (n: nat)
    ensures n <= |answers|
    ensures n > 0 <==> HasAnyYes(answers)
  {
    if |answers| == 0 then 0
    else
      var rest := YesCount(answers[1..]);
      assert HasAnyYes(answers) <==> answers[0] || HasAnyYes(answers[1..]) by {
        if HasAnyYes(answers) {
          var i :| 0 <= i < |answers| && answers[i];
          if i > 0 {
            assert answers[1..][i - 1];
          }
        }
        if HasAnyYes(answers[1..]) {
          var i :| 0 <= i < |answers| - 1 && answers[1..][i];
          assert answers[i + 1];
        }
      }
      (if answers[0] then 1 else 0) + rest
  }

  /** `cond.includes(word)` on the lower-cased condition. */
  predicate Mentions(p: DecisionPath, word: string) {
    Contains(Lower(p.condition), word)
  }

  /** The four tests an EMERGENCY path is put through, any of which fires. */
  predicate EmergencyFires(p: DecisionPath, answers: seq<bool>) {
    || (Mentions(p, "任一为是") && HasAnyYes(answers))
    || ((Mentions(p, "看到") || Mentions(p, "脐带")) && AnswerAt(answers, 1))
    || ((Mentions(p, "绿色") || Mentions(p, "棕色") || Mentions(p, "不足37周"))
        && (AnswerAt(answers, 0) || AnswerAt(answers, 2)))
    || (HasAnyYes(answers) && YesCount(answers) >= 2)
  }

  /** The two tests a CALL_DOCTOR path is put through. */
  predicate CallDoctorFires(p: DecisionPath, answers: seq<bool>) {
    || (Mentions(p, "不足37周") && |answers| > 2 && answers[if |answers| > 3 then 3 else 2])
    || HasAnyYes(answers)
  }

  /** The gestation test of a CALL_DOCTOR path only fires on a "yes" answer,
      so the any-yes test already covers it. */
  lemma CallDoctorIsAnyYes(p: DecisionPath, answers: seq<bool>)
    ensures CallDoctorFires(p, answers) <==> HasAnyYes(answers)
  {
    if Mentions(p, "不足37周") && |answers| > 2 && answers[if |answers| > 3 then 3 else 2] {
      assert answers[if |answers| > 3 then 3 else 2];
    }
  }

  /** The first index whose element satisfies `f`. */
  function FirstWhere<T>(s: seq<T>, f: T -> bool): (r: Option<nat>)
    ensures r.Some? ==> r.value < |s| && f(s[r.value]) && forall j :: 0 <= j < r.value ==> !f(s[j])
    ensures r.None? ==> forall j :: 0 <= j < |s| ==> !f(s[j])
  {
    if |s| == 0 then None
    else if f(s[0]) then Some(0)
    else match FirstWhere(s[1..], f)
      case None => None
      case Some(k) => Some(k + 1)
  }

  function Choose(p: DecisionPath, u: Urgency): Evaluation {
    Evaluation(Some(p), u, p.action)
  }

  /** `evaluateSymptomPath(tree, answers)` on `tree.decisionPaths`. */
  function EvaluateSymptomPath(paths: seq<DecisionPath>, answers: seq<bool>): (r: Evaluation)
    ensures |paths| == 0 ==> r == Evaluation(None, Normal, "观察情况")
    ensures |paths| > 0 ==> (
      && r.path.Some? && r.path.value in paths
      && r.urgency == r.path.value.urgency && r.suggestion == r.path.value.action)
  {
    if |paths| == 0 then Evaluation(None, Normal, "观察情况")
    else
      match FirstWhere(paths, (p: DecisionPath) => p.urgency == Emergency && EmergencyFires(p, answers))
      case Some(i) => Choose(paths[i], Emergency)
      case None =>
        match FirstWhere(paths, (p: DecisionPath) => p.urgency == CallDoctor && CallDoctorFires(p, answers))
        case Some(i) => Choose(paths[i], CallDoctor)
        case None =>
          var monitor := FirstWhere(paths, (p: DecisionPath) => p.urgency == Monitor);
          var normal := FirstWhere(paths, (p: DecisionPath) => p.urgency == Normal);
          if AllNo(answers) && monitor.Some? then Choose(paths[monitor.value], Monitor)
          else if AllNo(answers) && normal.Some? then Choose(paths[normal.value], Normal)
          else
            var last := paths[|paths| - 1];
            Choose(last, last.urgency)
  }

  predicate IsFirst(paths: seq<DecisionPath>, i: int, u: Urgency) {
    0 <= i < |paths| && paths[i].urgency == u && forall j :: 0 <= j < i ==> paths[j].urgency != u
  }

  /** With two or more "yes" answers every EMERGENCY path fires, so the
      first one in list order wins. */
  lemma TwoYesPicksFirstEmergency(paths: seq<DecisionPath>, answers: seq<bool>, i: nat)
    requires YesCount(answers) >= 2
    requires IsFirst(paths, i, Emergency)
    ensures EvaluateSymptomPath(paths, answers).path == Some(paths[i])
    ensures EvaluateSymptomPath(paths, answers).urgency == Emergency
  {
    var f := (p: DecisionPath) => p.urgency == Emergency && EmergencyFires(p, answers);
    var k := FirstWhere(paths, f);
    assert f(paths[i]);
    assert k.Some? && k.value == i;
  }

  /** With some "yes" answer and no EMERGENCY path firing, the first
      CALL_DOCTOR path wins. */
  lemma AnyYesPicksFirstCallDoctor(paths: seq<DecisionPath>, answers: seq<bool>, i: nat)
    requires HasAnyYes(answers)
    requires forall j :: 0 <= j < |paths| && paths[j].urgency == Emergency ==> !EmergencyFires(paths[j], answers)
    requires IsFirst(paths, i, CallDoctor)
    ensures EvaluateSymptomPath(paths, answers).path == Some(paths[i])
    ensures EvaluateSymptomPath(paths, answers).urgency == CallDoctor
  {
    var f := (p: DecisionPath) => p.urgency == CallDoctor && CallDoctorFires(p, answers);
    CallDoctorIsAnyYes(paths[i], answers);
    var k := FirstWhere(paths, f);
    assert f(paths[i]);
    assert k.Some? && k.value == i;
  }

  /** A non-empty all-"no" answer list picks the first MONITOR path, else
      the first NORMAL path, else the last path. */
  lemma AllNoDefaults(paths: seq<DecisionPath>, answers: seq<bool>)
    requires |paths| > 0 && AllNo(answers)
    ensures var r := EvaluateSymptomPath(paths, answers);
      && (forall i :: IsFirst(paths, i, Monitor) ==> r.path == Some(paths[i]))
      && ((forall j :: 0 <= j < |paths| ==> paths[j].urgency != Monitor) ==>
            forall i :: IsFirst(paths, i, Normal) ==> r.path == Some(paths[i]))
      && ((forall j :: 0 <= j < |paths| ==> paths[j].urgency !in {Monitor, Normal}) ==>
            r.path == Some(paths[|paths| - 1]))
  {
    assert !HasAnyYes(answers);
    assert YesCount(answers) == 0;
    forall j | 0 <= j < |paths| ensures !EmergencyFires(paths[j], answers) && !CallDoctorFires(paths[j], answers) {
      CallDoctorIsAnyYes(paths[j], answers);
    }
    forall i | IsFirst(paths, i, Monitor) ensures EvaluateSymptomPath(paths, answers).path == Some(paths[i]) {
      var m := FirstWhere(paths, (p: DecisionPath) => p.urgency == Monitor);
      assert m.Some? && m.value == i;
    }
    forall i | IsFirst(paths, i, Normal) && (forall j :: 0 <= j < |paths| ==> paths[j].urgency != Monitor)
      ensures EvaluateSymptomPath(paths, answers).path == Some(paths[i])
    {
      var n := FirstWhere(paths, (p: DecisionPath) => p.urgency == Normal);
      assert n.Some? && n.value == i;
    }
  }

  /** An empty answer list fires nothing and skips the all-"no" defaults:
      the last path is returned even when a MONITOR path exists. */
  lemma NoAnswersPicksLast(paths: seq<DecisionPath>)
    requires |paths| > 0
    ensures EvaluateSymptomPath(paths, []).path == Some(paths[|paths| - 1])
  {
    assert !HasAnyYes([]) && !AllNo([]);
    forall j | 0 <= j < |paths| ensures !EmergencyFires(paths[j], []) && !CallDoctorFires(paths[j], []) {
      CallDoctorIsAnyYes(paths[j], []);
    }
  }

  /** Only the keyword tests index single answers (0 to 3); the counting
      tests read them all. A path whose condition mentions no keyword, under
      one "yes" answer, never becomes an emergency. */
  lemma SingleYesNeedsKeyword(p: DecisionPath, answers: seq<bool>)
    requires YesCount(answers) == 1
    requires !Mentions(p, "任一为是") && !Mentions(p, "看到") && !Mentions(p, "脐带")
    requires !Mentions(p, "绿色") && !Mentions(p, "棕色") && !Mentions(p, "不足37周")
    ensures !EmergencyFires(p, answers)
  {
  }
}
