/** The knowledge-base entities as the app's screens and prompt builder see
    them (app/src/types/index.ts): food safety entries, symptom decision
    trees, emotional scenarios and emergency procedures. List-valued fields
    are sequences; the JSON text they are stored as is not modelled. */
module KbTypes {
  import opened Wrappers

  datatype SafetyLevel = Safe | Caution | Avoid

  /** The `safety_level` column accepts exactly these three spellings. */
  function ParseSafetyLevel(s: string): (r: Option<SafetyLevel>)
    ensures r.Some? <==> s in {"SAFE", "CAUTION", "AVOID"}
    ensures r.Some? ==> SafetyLevelName(r.value) == s
  {
    if s == "SAFE" then Some(Safe)
    else if s == "CAUTION" then Some(Caution)
    else if s == "AVOID" then Some(Avoid)
    else None
  }

  function SafetyLevelName(l: SafetyLevel): string {
    match l
    case Safe => "SAFE"
    case Caution => "CAUTION"
    case Avoid => "AVOID"
  }

  lemma SafetyLevelRoundTrip(l: SafetyLevel)
    ensures ParseSafetyLevel(SafetyLevelName(l)) == Some(l)
  {
  }

  datatype Urgency = Normal | Monitor | CallDoctor | Emergency

  function UrgencyName(u: Urgency): string {
    match u
    case Normal => "NORMAL"
    case Monitor => "MONITOR"
    case CallDoctor => "CALL_DOCTOR"
    case Emergency => "EMERGENCY"
  }

  datatype FoodItem = FoodItem(
    id: string,
    name: string,
    nameEn: string,
    category: string,
    safetyLevel: SafetyLevel,
    reason: string,
    dadTip: string,
    trimesterNotes: Option<string>)

  datatype DecisionPath = DecisionPath(condition: string, action: string, urgency: Urgency)

  datatype SymptomDecisionTree = SymptomDecisionTree(
    id: string,
    symptomName: string,
    symptomNameEn: string,
    questions: seq<string>,
    decisionPaths: seq<DecisionPath>,
    dadActions: seq<string>)

  datatype EmotionalScenario = EmotionalScenario(
    id: string,
    scenarioName: string,
    scenarioNameEn: string,
    trigger: string,
    wifeFeeling: string,
    wrongResponse: string,
    rightResponse: string,
    followUpActions: string)

  datatype EmergencyProcedure = EmergencyProcedure(
    id: string,
    emergencyName: string,
    emergencyNameEn: string,
    recognitionSigns: seq<string>,
    immediateActions: seq<string>,
    whatNotToDo: seq<string>,
    whenToCallAmbulance: seq<string>,
    hospitalBagItems: seq<string>,
    reassuranceScript: string)
}
