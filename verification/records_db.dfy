/** The record tables of the user database whose writes have a rule of
    their own (app/src/services/db/queries.ts): weight records, one per date
    and within a plausible range, and the partial updates of memories and
    milestones. Tables are rows in rowid order. */
module RecordsDb {
  import opened Wrappers
  import opened UserTypes

  // ---------------------------------------------------------------------
  // Weight records
  // ---------------------------------------------------------------------

  /** `weight` is a SQL REAL; the source's JavaScript number is modelled as
      a mathematical real. */
  datatype WeightRecord = WeightRecord(id: int, date: string, weight: real, createdAt: string)

  datatype WeightTable = WeightTable(rows: seq<WeightRecord>, lastId: int)

  /** The `UNIQUE` constraint on `date`. */
  predicate DatesDistinct(rows: seq<WeightRecord>) {
    forall i, j :: 0 <= i < j < |rows| ==> rows[i].date != rows[j].date
  }

  /** The weights `addWeightRecord` stores. */
  predicate Plausible(weight: real) {
    0.0 < weight <= 300.0
  }

  function FindDate(rows: seq<WeightRecord>, date: string): (r: Option<nat>)
    ensures r.Some? ==> r.value < |rows| && rows[r.value].date == date
    ensures r.None? ==> forall i :: 0 <= i < |rows| ==> rows[i].date != date
  {
    if |rows| == 0 then None
    else if rows[0].date == date then Some(0)
    else match FindDate(rows[1..], date)
      case None => None
      case Some(k) => Some(k + 1)
  }

  /** `addWeightRecord`: an implausible weight is ignored; otherwise the
      record for the date gets the weight in place (`ON CONFLICT(date) DO
      UPDATE`), or a new record is appended when the date has none. */
  function AddWeightRecord(t: WeightTable, date: string, weight: real, now: string): (r: WeightTable)
    ensures !Plausible(weight) ==> r == t
    ensures Plausible(weight) ==>
      && (exists i :: 0 <= i < |r.rows| && r.rows[i].date == date && r.rows[i].weight == weight)
      && |t.rows| <= |r.rows| <= |t.rows| + 1
      && forall i :: 0 <= i < |t.rows| && t.rows[i].date != date ==> r.rows[i] == t.rows[i]
    ensures DatesDistinct(t.rows) ==> DatesDistinct(r.rows)
  {
    if !Plausible(weight) then t
    else match FindDate(t.rows, date)
      case Some(k) =>
        var r := t.(rows := t.rows[k := t.rows[k].(weight := weight)]);
        assert r.rows[k].date == date;
        r
      case None =>
        var id := t.lastId + 1;
        var r := WeightTable(t.rows + [WeightRecord(id, date, weight, now)], id);
        assert r.rows[|t.rows|].date == date;
        r
  }

  /** Recording a date again replaces its weight without adding a row. */
  lemma SecondRecordReplaces(t: WeightTable, date: string, w1: real, w2: real, now1: string, now2: string)
    requires DatesDistinct(t.rows) && Plausible(w1) && Plausible(w2)
    ensures var once := AddWeightRecord(t, date, w1, now1);
      var twice := AddWeightRecord(once, date, w2, now2);
      && |twice.rows| == |once.rows|
      && twice == AddWeightRecord(t, date, w2, now1).(rows := twice.rows)
      && forall i :: 0 <= i < |twice.rows| && twice.rows[i].date == date ==> twice.rows[i].weight == w2
  {
    var once := AddWeightRecord(t, date, w1, now1);
    var k := FindDate(once.rows, date).value;
    assert forall i :: 0 <= i < |once.rows| && i != k ==> once.rows[i].date != date;
  }

  // ---------------------------------------------------------------------
  // Memories
  // ---------------------------------------------------------------------

  /** The `changes` of `updateMemory`: `None` is a field left undefined. */
  datatype MemoryPatch = MemoryPatch(
    title: Option<string>,
    note: Option<string>,
    photoUri: Option<string>,
    kind: Option<MemoryType>,
    week: Option<int>,
    day: Option<int>,
    shared: Option<bool>)

  predicate EmptyMemoryPatch(p: MemoryPatch) {
    p == MemoryPatch(None, None, None, None, None, None, None)
  }

  /** `q`'s given fields over `p`'s. */
  function MergeMemoryPatch(p: MemoryPatch, q: MemoryPatch): MemoryPatch {
    MemoryPatch(
      if q.title.Some? then q.title else p.title,
      if q.note.Some? then q.note else p.note,
      if q.photoUri.Some? then q.photoUri else p.photoUri,
      if q.kind.Some? then q.kind else p.kind,
      if q.week.Some? then q.week else p.week,
      if q.day.Some? then q.day else p.day,
      if q.shared.Some? then q.shared else p.shared)
  }

  function PatchMemory(m: Memory, p: MemoryPatch): Memory {
    m.(title := p.title.GetOr(m.title),
       note := if p.note.Some? then p.note else m.note,
       photoUri := if p.photoUri.Some? then p.photoUri else m.photoUri,
       kind := p.kind.GetOr(m.kind),
       week := if p.week.Some? then p.week else m.week,
       day := if p.day.Some? then p.day else m.day,
       shared := p.shared.GetOr(m.shared))
  }

  /** `updateMemory`: on the rows with the id, each given field takes the
      given value and every other field, the id and the creation time
      included, stays; other rows are untouched; with nothing given no
      statement runs. */
  function UpdateMemory(rows: seq<Memory>, id: int, p: MemoryPatch): (r: seq<Memory>)
    ensures |r| == |rows|
    ensures forall i :: 0 <= i < |rows| && rows[i].id != id ==> r[i] == rows[i]
    ensures forall i :: 0 <= i < |rows| && rows[i].id == id ==>
      && r[i].id == id && r[i].createdAt == rows[i].createdAt
      && (p.title.Some? ==> r[i].title == p.title.value) && (p.title.None? ==> r[i].title == rows[i].title)
      && (p.note.Some? ==> r[i].note == p.note) && (p.note.None? ==> r[i].note == rows[i].note)
      && (p.photoUri.Some? ==> r[i].photoUri == p.photoUri) && (p.photoUri.None? ==> r[i].photoUri == rows[i].photoUri)
      && (p.kind.Some? ==> r[i].kind == p.kind.value) && (p.kind.None? ==> r[i].kind == rows[i].kind)
      && (p.week.Some? ==> r[i].week == p.week) && (p.week.None? ==> r[i].week == rows[i].week)
      && (p.day.Some? ==> r[i].day == p.day) && (p.day.None? ==> r[i].day == rows[i].day)
      && (p.shared.Some? ==> r[i].shared == p.shared.value) && (p.shared.None? ==> r[i].shared == rows[i].shared)
    ensures EmptyMemoryPatch(p) ==> r == rows
  {
    if EmptyMemoryPatch(p) then rows
    else seq(|rows|, i requires 0 <= i < |rows| => if rows[i].id == id then PatchMemory(rows[i], p) else rows[i])
  }

  /** Two updates of the same memory are one update with the later given
      fields winning. */
  lemma MemoryUpdatesCompose(rows: seq<Memory>, id: int, p: MemoryPatch, q: MemoryPatch)
    ensures UpdateMemory(UpdateMemory(rows, id, p), id, q) == UpdateMemory(rows, id, MergeMemoryPatch(p, q))
  {
    var a := UpdateMemory(UpdateMemory(rows, id, p), id, q);
    var b := UpdateMemory(rows, id, MergeMemoryPatch(p, q));
    forall i | 0 <= i < |rows| ensures a[i] == b[i] {
      if rows[i].id == id {
        assert PatchMemory(PatchMemory(rows[i], p), q) == PatchMemory(rows[i], MergeMemoryPatch(p, q));
      }
    }
  }

  // ---------------------------------------------------------------------
  // Milestones
  // ---------------------------------------------------------------------

  /** The `changes` of `updateMilestone`. */
  datatype MilestonePatch = MilestonePatch(
    title: Option<string>,
    description: Option<string>,
    date: Option<string>,
    week: Option<int>,
    photoUri: Option<string>,
    templateId: Option<string>)

  predicate EmptyMilestonePatch(p: MilestonePatch) {
    p == MilestonePatch(None, None, None, None, None, None)
  }

  function MergeMilestonePatch(p: MilestonePatch, q: MilestonePatch): MilestonePatch {
    MilestonePatch(
      if q.title.Some? then q.title else p.title,
      if q.description.Some? then q.description else p.description,
      if q.date.Some? then q.date else p.date,
      if q.week.Some? then q.week else p.week,
      if q.photoUri.Some? then q.photoUri else p.photoUri,
      if q.templateId.Some? then q.templateId else p.templateId)
  }

  function PatchMilestone(m: Milestone, p: MilestonePatch): Milestone {
    m.(title := p.title.GetOr(m.title),
       description := if p.description.Some? then p.description else m.description,
       date := p.date.GetOr(m.date),
       week := if p.week.Some? then p.week else m.week,
       photoUri := if p.photoUri.Some? then p.photoUri else m.photoUri,
       templateId := if p.templateId.Some? then p.templateId else m.templateId)
  }

  /** `updateMilestone`, with the same rule as `updateMemory`. */
  function UpdateMilestone(rows: seq<Milestone>, id: int, p: MilestonePatch): (r: seq<Milestone>)
    ensures |r| == |rows|
    ensures forall i :: 0 <= i < |rows| && rows[i].id != id ==> r[i] == rows[i]
    ensures forall i :: 0 <= i < |rows| && rows[i].id == id ==>
      && r[i].id == id && r[i].createdAt == rows[i].createdAt
      && (p.title.Some? ==> r[i].title == p.title.value) && (p.title.None? ==> r[i].title == rows[i].title)
      && (p.description.Some? ==> r[i].description == p.description)
      && (p.description.None? ==> r[i].description == rows[i].description)
      && (p.date.Some? ==> r[i].date == p.date.value) && (p.date.None? ==> r[i].date == rows[i].date)
      && (p.week.Some? ==> r[i].week == p.week) && (p.week.None? ==> r[i].week == rows[i].week)
      && (p.photoUri.Some? ==> r[i].photoUri == p.photoUri) && (p.photoUri.None? ==> r[i].photoUri == rows[i].photoUri)
      && (p.templateId.Some? ==> r[i].templateId == p.templateId)
      && (p.templateId.None? ==> r[i].templateId == rows[i].templateId)
    ensures EmptyMilestonePatch(p) ==> r == rows
  {
    if EmptyMilestonePatch(p) then rows
    else seq(|rows|, i requires 0 <= i < |rows| => if rows[i].id == id then PatchMilestone(rows[i], p) else rows[i])
  }

  lemma MilestoneUpdatesCompose(rows: seq<Milestone>, id: int, p: MilestonePatch, q: MilestonePatch)
    ensures UpdateMilestone(UpdateMilestone(rows, id, p), id, q) == UpdateMilestone(rows, id, MergeMilestonePatch(p, q))
  {
    var a := UpdateMilestone(UpdateMilestone(rows, id, p), id, q);
    var b := UpdateMilestone(rows, id, MergeMilestonePatch(p, q));
    forall i | 0 <= i < |rows| ensures a[i] == b[i] {
      if rows[i].id == id {
        assert PatchMilestone(PatchMilestone(rows[i], p), q) == PatchMilestone(rows[i], MergeMilestonePatch(p, q));
      }
    }
  }
}
