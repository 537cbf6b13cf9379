/** The `ai_config` table of the user database and the three queries that
    decide which configuration is active (app/src/services/db/queries.ts).
    The table is its rows in rowid order plus the AUTOINCREMENT counter;
    `datetime('now')` is the `now` parameter. */
module AiConfigDb {
  import opened Wrappers
  import opened Sql
  import opened UserTypes

  datatype AiConfigRow = AiConfigRow(
    id: int,
    name: string,
    provider: string,
    baseUrl: Option<string>,
    apiKey: Option<string>,
    model: Option<string>,
    isActive: bool,
    updatedAt: string)

  /** The primary key. */
  function ConfigId(row: AiConfigRow): int {
    row.id
  }

  /** `lastId` is the largest id the table has ever handed out. */
  datatype AiConfigTable = AiConfigTable(rows: seq<AiConfigRow>, lastId: int)

  predicate IdsIncreasing(rows: seq<AiConfigRow>) {
    forall i, j :: 0 <= i < j < |rows| ==> rows[i].id < rows[j].id
  }

  /** What AUTOINCREMENT maintains: rows in increasing id order, none above
      the counter. */
  predicate Wf(t: AiConfigTable) {
    && IdsIncreasing(t.rows)
    && forall i :: 0 <= i < |t.rows| ==> t.rows[i].id <= t.lastId
  }

  /** Row `k` is active and no other row is. */
  predicate SoleActive(rows: seq<AiConfigRow>, k: int) {
    && 0 <= k < |rows|
    && rows[k].isActive
    && forall i :: 0 <= i < |rows| && i != k ==> !rows[i].isActive
  }

  /** The invariant the three queries keep: a non-empty table has exactly
      one active configuration. */
  predicate OneActive(rows: seq<AiConfigRow>) {
    |rows| == 0 || exists k :: 0 <= k < |rows| && SoleActive(rows, k)
  }

  /** The name stored when the caller gives none. */
  const DefaultName: string := "新配置"

  datatype Added = Added(table: AiConfigTable, id: int)

  /** `addAIConfig`: a new row with the next id; it is active exactly when
      the table was empty. The caller's id, provider and flag are ignored. */
  function AddAiConfig(t: AiConfigTable, config: AiConfig, now: string): (r: Added)
    ensures |r.table.rows| == |t.rows| + 1 && r.table.rows[..|t.rows|] == t.rows
    ensures var row := r.table.rows[|t.rows|];
      && row.id == r.id
      && (row.isActive <==> |t.rows| == 0)
      && row.provider == "custom"
      && row.name != ""
      && (config.name.Some? && config.name.value != "" ==> row.name == config.name.value)
      && row.baseUrl == config.baseUrl && row.apiKey == config.apiKey && row.model == config.model
      && row.updatedAt == now
    ensures Wf(t) ==> Wf(r.table) && forall i :: 0 <= i < |t.rows| ==> t.rows[i].id < r.id
  {
    var name := if config.name.None? || config.name.value == "" then DefaultName else config.name.value;
    var id := t.lastId + 1;
    var row := AiConfigRow(id, name, "custom", config.baseUrl, config.apiKey, config.model, |t.rows| == 0, now);
    Added(AiConfigTable(t.rows + [row], id), id)
  }

  lemma AddKeepsOneActive(t: AiConfigTable, config: AiConfig, now: string)
    requires OneActive(t.rows)
    ensures OneActive(AddAiConfig(t, config, now).table.rows)
  {
    var r := AddAiConfig(t, config, now).table.rows;
    if |t.rows| == 0 {
      assert SoleActive(r, 0);
    } else {
      var k :| 0 <= k < |t.rows| && SoleActive(t.rows, k);
      assert forall i :: 0 <= i < |t.rows| ==> r[i] == t.rows[i];
      assert SoleActive(r, k);
    }
  }


  /** `setActiveAIConfig` inside its transaction: every flag is cleared and
      the row with the id is activated and touched. When no row has the id
      the transaction rolls back and the call throws. */
  function SetActiveAiConfig(t: AiConfigTable, id: int, now: string): (r: Result<AiConfigTable>)
    ensures r.Err? <==> forall i :: 0 <= i < |t.rows| ==> t.rows[i].id != id
    ensures r.Err? ==> r.error == NotFound
    ensures r.Ok? ==> r.value.lastId == t.lastId && |r.value.rows| == |t.rows|
    ensures r.Ok? ==> forall i :: 0 <= i < |t.rows| ==>
      && (r.value.rows[i].isActive <==> t.rows[i].id == id)
      && r.value.rows[i].(isActive := t.rows[i].isActive, updatedAt := t.rows[i].updatedAt) == t.rows[i]
      && (t.rows[i].id != id ==> r.value.rows[i].updatedAt == t.rows[i].updatedAt)
      && (t.rows[i].id == id ==> r.value.rows[i].updatedAt == now)
  {
    match FindKey(t.rows, ConfigId, id)
    case None => Err(NotFound)
    case Some(_) =>
      var rows := seq(|t.rows|, i requires 0 <= i < |t.rows| =>
        if t.rows[i].id == id then t.rows[i].(isActive := true, updatedAt := now)
        else t.rows[i].(isActive := false));
      Ok(t.(rows := rows))
  }

  /** After a successful switch exactly the chosen row is active. */
  lemma SetActiveLeavesOneActive(t: AiConfigTable, id: int, now: string)
    requires Wf(t)
    ensures var r := SetActiveAiConfig(t, id, now);
      r.Ok? ==> exists k :: SoleActive(r.value.rows, k) && r.value.rows[k].id == id
  {
    var r := SetActiveAiConfig(t, id, now);
    if r.Ok? {
      var k := FindKey(t.rows, ConfigId, id).value;
      assert SoleActive(r.value.rows, k);
    }
  }

  /** Row `a` comes before row `b` under `ORDER BY updated_at DESC, id DESC`. */
  predicate Later(a: AiConfigRow, b: AiConfigRow) {
    TextLess(b.updatedAt, a.updatedAt) || (a.updatedAt == b.updatedAt && a.id > b.id)
  }

  lemma LaterTrans(a: AiConfigRow, b: AiConfigRow, c: AiConfigRow)
    requires Later(a, b) && Later(b, c)
    ensures Later(a, c)
  {
    if TextLess(b.updatedAt, a.updatedAt) && TextLess(c.updatedAt, b.updatedAt) {
      TextLessTrans(c.updatedAt, b.updatedAt, a.updatedAt);
    }
  }

  lemma LaterIrreflexive(a: AiConfigRow)
    ensures !Later(a, a)
  {
    TextLessIrreflexive(a.updatedAt);
  }

  /** The row `LIMIT 1` returns under that order. */
  function Latest(rows: seq<AiConfigRow>): (k: nat)
    requires |rows| > 0
    ensures k < |rows|
  {
    if |rows| == 1 then 0
    else
      var k := Latest(rows[..|rows| - 1]);
      if Later(rows[|rows| - 1], rows[k]) then |rows| - 1 else k
  }

  /** No row sorts ahead of the chosen one. */
  lemma {:induction false} LatestIsFirst(rows: seq<AiConfigRow>)
    requires |rows| > 0
    ensures forall i :: 0 <= i < |rows| ==> !Later(rows[i], rows[Latest(rows)])
  {
    if |rows| > 1 {
      var init := rows[..|rows| - 1];
      var last := rows[|rows| - 1];
      var k := Latest(init);
      LatestIsFirst(init);
      LaterIrreflexive(last);
      if Later(last, rows[k]) {
        forall i | 0 <= i < |rows| ensures !Later(rows[i], last) {
          if i < |rows| - 1 && Later(rows[i], last) {
            assert rows[i] == init[i];
            LaterTrans(rows[i], last, rows[k]);
          }
        }
      } else {
        forall i | 0 <= i < |rows| ensures !Later(rows[i], rows[k]) {
          if i < |rows| - 1 {
            assert rows[i] == init[i];
          }
        }
      }
    } else {
      LaterIrreflexive(rows[0]);
    }
  }

  /** The rows without the id, in their order. */
  function RemoveId(rows: seq<AiConfigRow>, id: int): (r: seq<AiConfigRow>)
    ensures forall i :: 0 <= i < |r| ==> r[i] in rows && r[i].id != id
    ensures forall i :: 0 <= i < |rows| && rows[i].id != id ==> rows[i] in r
    ensures |r| <= |rows|
  {
    if |rows| == 0 then []
    else
      var rest := RemoveId(rows[1..], id);
      assert forall i :: 0 <= i < |rest| ==> rest[i] in rows[1..];
      if rows[0].id == id then rest else [rows[0]] + rest
  }

  /** A bound below every id survives the delete. */
  lemma {:induction false} RemoveIdAbove(rows: seq<AiConfigRow>, id: int, b: int)
    requires forall i :: 0 <= i < |rows| ==> b < rows[i].id
    ensures forall i :: 0 <= i < |RemoveId(rows, id)| ==> b < RemoveId(rows, id)[i].id
  {
    if |rows| > 0 {
      RemoveIdAbove(rows[1..], id, b);
    }
  }

  /** Deleting keeps the ids increasing in table order. */
  lemma {:induction false} RemoveIdIncreasing(rows: seq<AiConfigRow>, id: int)
    requires IdsIncreasing(rows)
    ensures IdsIncreasing(RemoveId(rows, id))
  {
    if |rows| > 0 {
      RemoveIdIncreasing(rows[1..], id);
      RemoveIdAbove(rows[1..], id, rows[0].id);
    }
  }

  /** Some row carries the id. */
  predicate HasId(rows: seq<AiConfigRow>, id: int) {
    exists i :: 0 <= i < |rows| && rows[i].id == id
  }

  /** The row with the id is the active one. */
  predicate ActiveId(rows: seq<AiConfigRow>, id: int) {
    exists i :: 0 <= i < |rows| && rows[i].id == id && rows[i].isActive
  }

  /** `deleteAIConfig` inside its transaction: the row goes; when it was the
      active one, the row that sorts first by latest update and then highest
      id becomes active and is touched. */
  function DeleteAiConfig(t: AiConfigTable, id: int, now: string): (r: AiConfigTable)
    ensures r.lastId == t.lastId
    ensures forall i :: 0 <= i < |r.rows| ==> r.rows[i].id != id
    ensures Wf(t) ==> Wf(r)
  {
    var rest := RemoveId(t.rows, id);
    assert IdsIncreasing(t.rows) ==> IdsIncreasing(rest) by {
      if IdsIncreasing(t.rows) {
        RemoveIdIncreasing(t.rows, id);
      }
    }
    if ActiveId(t.rows, id) && |rest| > 0 then
      var k := Latest(rest);
      t.(rows := rest[k := rest[k].(isActive := true, updatedAt := now)])
    else t.(rows := rest)
  }

  /** Deleting the active configuration hands the flag to the remaining row
      that sorts first by latest update and then highest id. */
  lemma DeleteActiveHandsOver(t: AiConfigTable, id: int, now: string)
    requires Wf(t) && OneActive(t.rows) && ActiveId(t.rows, id)
    ensures var r := DeleteAiConfig(t, id, now);
      && OneActive(r.rows)
      && |r.rows| == |t.rows| - 1
      && var rest := RemoveId(t.rows, id);
      (|rest| > 0 ==> exists k :: (
        && 0 <= k < |rest| && SoleActive(r.rows, k)
        && r.rows[k] == rest[k].(isActive := true, updatedAt := now)
        && forall i :: 0 <= i < |rest| ==> !Later(rest[i], rest[k])))
  {
    var rest := RemoveId(t.rows, id);
    var r := DeleteAiConfig(t, id, now);
    RemoveIdCount(t.rows, id);
    var k0 :| 0 <= k0 < |t.rows| && SoleActive(t.rows, k0);
    assert t.rows[k0].id == id;
    assert forall j :: 0 <= j < |rest| ==> !rest[j].isActive;
    if |rest| > 0 {
      var k := Latest(rest);
      LatestIsFirst(rest);
      assert SoleActive(r.rows, k);
    }
  }

  /** Deleting an inactive configuration, or an unknown id, leaves the
      active one active. */
  lemma DeleteInactiveKeepsActive(t: AiConfigTable, id: int, now: string)
    requires Wf(t) && OneActive(t.rows) && !ActiveId(t.rows, id)
    ensures var r := DeleteAiConfig(t, id, now);
      && OneActive(r.rows)
      && r.rows == RemoveId(t.rows, id)
      && |r.rows| == |t.rows| - (if HasId(t.rows, id) then 1 else 0)
  {
    var rest := RemoveId(t.rows, id);
    var r := DeleteAiConfig(t, id, now);
    RemoveIdCount(t.rows, id);
    if |t.rows| > 0 {
      var k0 :| 0 <= k0 < |t.rows| && SoleActive(t.rows, k0);
      assert t.rows[k0].id != id;
      assert t.rows[k0] in rest;
      var j0 :| 0 <= j0 < |rest| && rest[j0] == t.rows[k0];
      forall j | 0 <= j < |rest| && j != j0 ensures !rest[j].isActive {
        var i :| 0 <= i < |t.rows| && t.rows[i] == rest[j];
        assert i != k0;
      }
      assert SoleActive(r.rows, j0);
    }
  }

  /** Under increasing ids, removing an id drops at most the one row that
      carries it. */
  lemma {:induction false} RemoveIdCount(rows: seq<AiConfigRow>, id: int)
    requires IdsIncreasing(rows)
    ensures |RemoveId(rows, id)| == |rows| - (if HasId(rows, id) then 1 else 0)
  {
    if |rows| > 0 {
      RemoveIdCount(rows[1..], id);
      if rows[0].id == id {
        assert forall i :: 1 <= i < |rows| ==> rows[i].id != id;
        assert !HasId(rows[1..], id);
      } else {
        assert HasId(rows, id) <==> HasId(rows[1..], id) by {
          if HasId(rows, id) {
            var i :| 0 <= i < |rows| && rows[i].id == id;
            assert rows[1..][i - 1].id == id;
          }
        }
      }
    }
  }
}
