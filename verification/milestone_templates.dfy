/** The built-in milestone templates (app/src/knowledge/milestoneTemplates.ts):
    the eight suggestions offered when recording a milestone, looking one up
    by id, and which of them the timeline highlights. */
module MilestoneTemplates {
  import opened Wrappers
  import opened Seqs

  datatype MilestoneTemplate = MilestoneTemplate(
    id: string,
    title: string,
    titleZh: string,
    defaultDescription: string,
    icon: string,
    suggestedWeek: int)

  const Templates: seq<MilestoneTemplate> := [
    MilestoneTemplate("first_heartbeat", "First heartbeat", "第一次心跳", "听到了宝宝小小的心跳声，像小马在奔跑！", "heart", 8),
    MilestoneTemplate("first_ultrasound", "First ultrasound", "第一次B超", "在屏幕上看到了小小的身影，太神奇了！", "image", 12),
    MilestoneTemplate("first_kick", "First kick", "第一次胎动", "感受到宝宝在动了，像蝴蝶在肚子里扑腾。", "footsteps", 18),
    MilestoneTemplate("gender_reveal", "Gender reveal", "知道宝宝性别", "揭晓了宝宝的性别，全家都很开心！", "gift", 20),
    MilestoneTemplate("baby_shopping", "First baby shopping", "第一次囤货", "给宝宝买了第一件小衣服/用品。", "cart", 22),
    MilestoneTemplate("birth_plan", "Birth plan ready", "分娩计划", "和她一起讨论并制定了分娩计划。", "document-text", 28),
    MilestoneTemplate("hospital_bag", "Hospital bag packed", "待产包准备好了", "待产包终于收拾完了，随时待命！", "briefcase", 35),
    MilestoneTemplate("due_date", "Due date", "预产期", "倒计时归零，准备迎接宝宝！", "calendar", 40)
  ]

  const Highlights: seq<string> := ["first_heartbeat", "first_kick", "gender_reveal", "due_date"]

  function TemplateId(t: MilestoneTemplate): string { t.id }

  function Ids(ts: seq<MilestoneTemplate>): seq<string> {
    Map(ts, TemplateId)
  }

  /** The template table is well formed: distinct ids, suggested weeks
      within the 40-week pregnancy and rising through the list, and every
      highlighted id is a template. */
  lemma TemplatesWellFormed()
    ensures Distinct(Ids(Templates))
    ensures forall k :: 0 <= k < |Templates| ==> 1 <= Templates[k].suggestedWeek <= 40
    ensures forall k :: 0 < k < |Templates| ==> Templates[k - 1].suggestedWeek < Templates[k].suggestedWeek
    ensures forall h :: h in Highlights ==> h in Ids(Templates)
  {
    var ids := Ids(Templates);
    assert ids == ["first_heartbeat", "first_ultrasound", "first_kick", "gender_reveal",
                   "baby_shopping", "birth_plan", "hospital_bag", "due_date"];
  }

  /** `Array.prototype.find` on the id: the first template with the id. */
  function FindTemplate(ts: seq<MilestoneTemplate>, id: string): (r: Option<MilestoneTemplate>)
    ensures r.Some? <==> exists k :: 0 <= k < |ts| && ts[k].id == id
    ensures r.Some? ==> r.value.id == id && r.value in ts
    ensures r.Some? ==> exists k :: 0 <= k < |ts| && ts[k] == r.value && forall j :: 0 <= j < k ==> ts[j].id != id
  {
    if |ts| == 0 then None
    else if ts[0].id == id then Some(ts[0])
    else
      var r := FindTemplate(ts[1..], id);
      assert forall k :: 1 <= k < |ts| ==> ts[k] == ts[1..][k - 1];
      if r.Some? then
        var k :| 0 <= k < |ts[1..]| && ts[1..][k] == r.value && forall j :: 0 <= j < k ==> ts[1..][j].id != id;
        assert ts[k + 1] == r.value;
        r
      else r
  }

  /** `getTemplateById`. */
  function GetTemplateById(id: string): (r: Option<MilestoneTemplate>)
    ensures r.Some? <==> exists k :: 0 <= k < |Templates| && Templates[k].id == id
    ensures r.Some? ==> r.value.id == id && r.value in Templates
  {
    FindTemplate(Templates, id)
  }

  /** Looking up the id of each template gives that template back: with
      distinct ids the first match is the only one. */
  lemma LookupRoundTrip(k: nat)
    requires k < |Templates|
    ensures GetTemplateById(Templates[k].id) == Some(Templates[k])
  {
    TemplatesWellFormed();
    var ids := Ids(Templates);
    var r := GetTemplateById(Templates[k].id);
    var j :| 0 <= j < |Templates| && Templates[j] == r.value && forall i :: 0 <= i < j ==> Templates[i].id != Templates[k].id;
    assert ids[j] == ids[k];
  }

  /** `isHighlightTemplate`: an absent or empty id is not highlighted;
      otherwise the id is one of the four highlights. */
  function IsHighlightTemplate(templateId: Option<string>): (r: bool)
    ensures r <==> templateId.Some? && templateId.value in Highlights
  {
    match templateId
    case None => false
    case Some(id) => id != "" && id in Highlights
  }

  /** Exactly four templates are highlighted: the first heartbeat, the
      first kick, the gender reveal and the due date. */
  lemma HighlightedTemplates()
    ensures forall k :: 0 <= k < |Templates| ==>
      (IsHighlightTemplate(Some(Templates[k].id)) <==> k in {0, 2, 3, 7})
  {
    assert Ids(Templates) == ["first_heartbeat", "first_ultrasound", "first_kick", "gender_reveal",
                              "baby_shopping", "birth_plan", "hospital_bag", "due_date"];
  }
}
