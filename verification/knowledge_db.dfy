/** The on-device knowledge database (app/src/services/kb/knowledgeDb.ts):
    a process-wide handle that is opened once, a `kb_meta` key/value table
    holding the content version, and four content tables that are each
    reseeded wholesale inside one transaction. */
module KnowledgeDb {
  import opened Wrappers
  import opened Js
  import opened Seqs
  import opened Sql
  import opened KbTypes

  // ------------------------------------------------------------ seed input

  datatype FoodData = FoodData(
    name: string,
    nameEn: string,
    category: string,
    safetyLevel: string,
    reason: string,
    dadTip: Option<string>,
    trimesterNotes: Option<string>)

  datatype SymptomData = SymptomData(
    id: string,
    symptomName: string,
    symptomNameEn: string,
    questions: seq<string>,
    decisionPaths: seq<DecisionPath>,
    dadActions: Option<seq<string>>)

  datatype EmotionalData = EmotionalData(
    id: string,
    scenarioName: string,
    scenarioNameEn: string,
    trigger: string,
    wifeFeeling: Option<string>,
    wrongResponse: Option<string>,
    rightResponse: string,
    followUpActions: Option<string>)

  datatype EmergencyData = EmergencyData(
    id: string,
    emergencyName: string,
    emergencyNameEn: string,
    recognitionSigns: seq<string>,
    immediateActions: seq<string>,
    whatNotToDo: Option<seq<string>>,
    whenToCallAmbulance: Option<seq<string>>,
    hospitalBagItems: Option<seq<string>>,
    reassuranceScript: Option<string>)

  // ---------------------------------------------------------------- tables

  /** A `kb_food` row. The column type of `safety_level` is the CHECK
      constraint: only the three levels can be stored. */
  datatype FoodRow = FoodRow(
    id: string,
    name: string,
    nameEn: Option<string>,
    category: string,
    safetyLevel: SafetyLevel,
    reason: string,
    dadTip: Option<string>,
    trimesterNotes: Option<string>,
    searchText: string)

  datatype SymptomRow = SymptomRow(
    id: string,
    symptomName: string,
    symptomNameEn: Option<string>,
    questions: seq<string>,
    decisionPaths: seq<DecisionPath>,
    dadActions: Option<seq<string>>,
    searchText: string)

  datatype EmotionalRow = EmotionalRow(
    id: string,
    scenarioName: string,
    scenarioNameEn: Option<string>,
    trigger: string,
    wifeFeeling: Option<string>,
    wrongResponse: Option<string>,
    rightResponse: string,
    followUpActions: Option<string>,
    searchText: string)

  datatype EmergencyRow = EmergencyRow(
    id: string,
    emergencyName: string,
    emergencyNameEn: Option<string>,
    recognitionSigns: seq<string>,
    immediateActions: seq<string>,
    whatNotToDo: Option<seq<string>>,
    whenToCallAmbulance: Option<seq<string>>,
    hospitalBagItems: Option<seq<string>>,
    reassuranceScript: Option<string>,
    searchText: string)

  function FoodKey(r: FoodRow): string { r.id }
  function SymptomKey(r: SymptomRow): string { r.id }
  function EmotionalKey(r: EmotionalRow): string { r.id }
  function EmergencyKey(r: EmergencyRow): string { r.id }

  /** The database file: the meta table and the four content tables, each in
      rowid order. */
  datatype KbStore = KbStore(
    meta: map<string, string>,
    foods: seq<FoodRow>,
    symptoms: seq<SymptomRow>,
    emotional: seq<EmotionalRow>,
    emergencies: seq<EmergencyRow>)

  /** Every table keeps its primary key unique. */
  ghost predicate Valid(db: KbStore) {
    && KeysDistinct(db.foods, FoodKey)
    && KeysDistinct(db.symptoms, SymptomKey)
    && KeysDistinct(db.emotional, EmotionalKey)
    && KeysDistinct(db.emergencies, EmergencyKey)
  }

  /** The module-level `knowledgeDb` variable: no handle until opened. */
  datatype KbSession = KbSession(handle: Option<KbStore>)

  /** What the platform does on a first open: nothing goes wrong, the file
      cannot be opened, or the file opens and `initKnowledgeSchema` throws. */
  datatype OpenFault = NoOpenFault | OpenRefused | SchemaFails

  /** The module variable after the call, and what the call returns. */
  datatype OpenOutcome = OpenOutcome(session: KbSession, db: Result<KbStore>)

  /** `openKnowledgeDatabase`: the first call opens the file (`disk`) and
      stores the handle in the module variable BEFORE creating the schema,
      so a schema failure throws but leaves the handle set; every later call
      returns the stored handle and never runs the schema again. */
  function OpenKnowledgeDatabase(s: KbSession, disk: KbStore, fault: OpenFault): (r: OpenOutcome)
    ensures r.db.Ok? ==> r.session.handle == Some(r.db.value)
    ensures s.handle.Some? ==> r == OpenOutcome(s, Ok(s.handle.value))
    ensures s.handle.None? ==> (r.db.Ok? <==> fault.NoOpenFault?)
    ensures s.handle.None? ==> (r.session.handle.Some? <==> !fault.OpenRefused?)
    ensures s.handle.None? && !fault.OpenRefused? ==> r.session == KbSession(Some(disk))
    ensures s.handle.None? && fault.OpenRefused? ==> r.session == s
  {
    if s.handle.Some? then OpenOutcome(s, Ok(s.handle.value))
    else if fault.OpenRefused? then OpenOutcome(s, Err(StorageFault))
    else if fault.SchemaFails? then OpenOutcome(KbSession(Some(disk)), Err(StorageFault))
    else OpenOutcome(KbSession(Some(disk)), Ok(disk))
  }

  /** Once an open succeeded, opening again returns the same handle and
      session whatever the disk or the platform does. */
  lemma OpenIdempotent(s: KbSession, disk: KbStore, fault: OpenFault, disk2: KbStore, fault2: OpenFault)
    requires OpenKnowledgeDatabase(s, disk, fault).db.Ok?
    ensures var o := OpenKnowledgeDatabase(s, disk, fault);
      o.session.handle.Some? && OpenKnowledgeDatabase(o.session, disk2, fault2) == o
  {
  }

  /** A schema failure throws, but the handle stays: the next call succeeds
      with the half-initialised file and the schema is never retried. */
  lemma SchemaFailureIsNotRetried(s: KbSession, disk: KbStore, disk2: KbStore, fault2: OpenFault)
    requires s.handle.None?
    ensures var o := OpenKnowledgeDatabase(s, disk, SchemaFails);
      && o.db.Err?
      && OpenKnowledgeDatabase(o.session, disk2, fault2) == OpenOutcome(o.session, Ok(disk))
  {
  }

  // --------------------------------------------------------------- version

  const VersionKey: string := "version"

  /** `getKbVersion`. */
  function GetKbVersion(s: KbSession): (r: Option<string>)
    ensures s.handle.None? ==> r.None?
    ensures s.handle.Some? ==> (r.Some? <==> VersionKey in s.handle.value.meta)
  {
    if s.handle.None? then None
    else if VersionKey in s.handle.value.meta then Some(s.handle.value.meta[VersionKey])
    else None
  }

  /** `setKbVersion`: an upsert of the single `version` row; nothing else
      changes. */
  function SetKbVersion(s: KbSession, v: string): (r: KbSession)
    ensures s.handle.None? ==> r == s
    ensures s.handle.Some? ==> (
      && r.handle.Some?
      && r.handle.value == s.handle.value.(meta := r.handle.value.meta)
      && r.handle.value.meta.Keys == s.handle.value.meta.Keys + {VersionKey}
      && forall k :: k in s.handle.value.meta && k != VersionKey ==>
           r.handle.value.meta[k] == s.handle.value.meta[k])
  {
    if s.handle.None? then s
    else KbSession(Some(s.handle.value.(meta := s.handle.value.meta[VersionKey := v])))
  }

  lemma VersionRoundTrip(s: KbSession, v: string, w: string)
    ensures s.handle.Some? ==> GetKbVersion(SetKbVersion(s, v)) == Some(v)
    ensures s.handle.Some? ==> SetKbVersion(SetKbVersion(s, w), v) == SetKbVersion(s, v)
    ensures s.handle.None? ==> GetKbVersion(SetKbVersion(s, v)) == None
  {
    if s.handle.Some? {
      var m := s.handle.value.meta;
      assert m[VersionKey := w][VersionKey := v] == m[VersionKey := v];
    }
  }

  // ------------------------------------------------------- derived columns

  predicate IsIdChar(c: char) {
    ('a' <= c <= 'z') || ('A' <= c <= 'Z') || ('0' <= c <= '9') || ('一' <= c <= '龥')
  }

  /** The number of UTF-16 code units a character takes: two for a
      character above U+FFFF (a surrogate pair), one otherwise. */
  function Utf16Width(c: char): nat {
    if c as int > 0xFFFF then 2 else 1
  }

  function Utf16Length(s: string): nat {
    if |s| == 0 then 0 else Utf16Width(s[0]) + Utf16Length(s[1..])
  }

  /** What one character becomes: itself when allowed, otherwise one `_`
      per UTF-16 code unit. */
  function IdUnits(c: char): (r: string)
    ensures |r| == Utf16Width(c)
    ensures forall i :: 0 <= i < |r| ==> IsIdChar(r[i]) || r[i] == '_'
  {
    if IsIdChar(c) then [c] else if Utf16Width(c) == 2 then "__" else "_"
  }

  /** `name.replace(/[^a-zA-Z0-9一-龥]/g, '_')`. The pattern has no `u` flag,
      so it runs over UTF-16 code units: each half of a surrogate pair is
      replaced on its own, and a character above U+FFFF becomes `__`. */
  function IdSafe(name: string): (r: string)
    ensures |r| == Utf16Length(name)
    ensures forall i :: 0 <= i < |r| ==> IsIdChar(r[i]) || r[i] == '_'
    ensures (forall i :: 0 <= i < |name| ==> Utf16Width(name[i]) == 1) ==>
      && |r| == |name|
      && forall i :: 0 <= i < |name| ==> r[i] == (if IsIdChar(name[i]) then name[i] else '_')
  {
    if |name| == 0 then []
    else
      var rest := IdSafe(name[1..]);
      assert forall i :: 1 <= i < |name| ==> name[1..][i - 1] == name[i];
      IdUnits(name[0]) + rest
  }

  /** The food primary key: `food_` and the name with every UTF-16 code unit
      outside ASCII letters, digits and U+4E00..U+9FA5 turned into `_`. */
  function FoodId(name: string): (r: string)
    ensures |r| == Utf16Length(name) + 5 && r[..5] == "food_"
    ensures forall i :: 5 <= i < |r| ==> IsIdChar(r[i]) || r[i] == '_'
    ensures (forall i :: 0 <= i < |name| ==> Utf16Width(name[i]) == 1) ==>
      && |r| == |name| + 5
      && forall i :: 0 <= i < |name| ==> r[i + 5] == (if IsIdChar(name[i]) then name[i] else '_')
  {
    "food_" + IdSafe(name)
  }

  /** A text made only of allowed characters and `_` is left as it is. */
  lemma {:induction false} IdSafeFixes(s: string)
    requires forall i :: 0 <= i < |s| ==> IsIdChar(s[i]) || s[i] == '_'
    ensures IdSafe(s) == s
  {
    if |s| > 0 {
      assert forall i :: 0 <= i < |s| - 1 ==> s[1..][i] == s[i + 1];
      IdSafeFixes(s[1..]);
      assert s == [s[0]] + s[1..];
    }
  }

  /** Sanitising is idempotent and leaves already-safe names alone. */
  lemma IdSafeIdempotent(name: string)
    ensures IdSafe(IdSafe(name)) == IdSafe(name)
    ensures IdSafe(name) == name <==> forall i :: 0 <= i < |name| ==> IsIdChar(name[i]) || name[i] == '_'
  {
    IdSafeFixes(IdSafe(name));
    if forall i :: 0 <= i < |name| ==> IsIdChar(name[i]) || name[i] == '_' {
      IdSafeFixes(name);
    }
  }

  /** Names that differ only in unsafe characters of the same UTF-16 width,
      in the same places, share a key, so their rows collapse on insert. */
  lemma {:induction false} FoodIdCollision(a: string, b: string)
    requires |a| == |b|
    requires forall i :: 0 <= i < |a| ==>
      (a[i] == b[i] || (!IsIdChar(a[i]) && !IsIdChar(b[i]) && Utf16Width(a[i]) == Utf16Width(b[i])))
    ensures FoodId(a) == FoodId(b)
  {
    if |a| > 0 {
      assert forall i :: 0 <= i < |a| - 1 ==> a[1..][i] == a[i + 1] && b[1..][i] == b[i + 1];
      FoodIdCollision(a[1..], b[1..]);
      assert IdUnits(a[0]) == IdUnits(b[0]);
    }
  }

  lemma IdSafeCons(c: char, s: string)
    ensures IdSafe([c] + s) == IdUnits(c) + IdSafe(s)
  {
    assert ([c] + s)[1..] == s;
  }

  /** A strawberry emoji is a surrogate pair, so it collides with two
      underscores: `草莓🍓` and `草莓__` get the same key. */
  lemma AstralNameCollides()
    ensures FoodId("草莓\U{1F353}") == FoodId("草莓__")
  {
    AstralNameSanitised();
    IdSafeFixes("草莓__");
  }

  lemma AstralNameSanitised()
    ensures IdSafe("草莓\U{1F353}") == "草莓__"
  {
    var e := '\U{1F353}';
    assert IdSafe([e]) == "__" by {
      IdSafeCons(e, []);
      assert [e] + [] == [e];
      IdSafeFixes([]);
    }
    assert IdSafe(['莓', e]) == "莓__" by {
      IdSafeCons('莓', [e]);
      assert ['莓'] + [e] == ['莓', e];
    }
    IdSafeCons('草', ['莓', e]);
    assert ['草'] + ['莓', e] == "草莓\U{1F353}";
  }

  function FoodSearchText(d: FoodData): string {
    d.name + " " + d.nameEn + " " + d.category + " " + d.reason
  }

  function SymptomSearchText(d: SymptomData): string {
    d.symptomName + " " + d.symptomNameEn
  }

  function EmotionalSearchText(d: EmotionalData): string {
    d.scenarioName + " " + d.scenarioNameEn + " " + d.trigger + " " + d.wifeFeeling.GetOr("")
  }

  function EmergencySearchText(d: EmergencyData): string {
    d.emergencyName + " " + d.emergencyNameEn + " " + Join(d.recognitionSigns, " ")
  }

  /** The row a food record becomes; `None` when the CHECK on
      `safety_level` rejects it. */
  function FoodToRow(d: FoodData): (r: Option<FoodRow>)
    ensures r.Some? <==> ParseSafetyLevel(d.safetyLevel).Some?
    ensures r.Some? ==> r.value.id == FoodId(d.name) && r.value.searchText == FoodSearchText(d)
  {
    match ParseSafetyLevel(d.safetyLevel)
    case None => None
    case Some(level) =>
      Some(FoodRow(FoodId(d.name), d.name, Some(d.nameEn), d.category, level, d.reason,
                   d.dadTip, d.trimesterNotes, FoodSearchText(d)))
  }

  function SymptomToRow(d: SymptomData): SymptomRow {
    SymptomRow(d.id, d.symptomName, Some(d.symptomNameEn), d.questions, d.decisionPaths,
               d.dadActions, SymptomSearchText(d))
  }

  function EmotionalToRow(d: EmotionalData): EmotionalRow {
    EmotionalRow(d.id, d.scenarioName, Some(d.scenarioNameEn), d.trigger, d.wifeFeeling,
                 d.wrongResponse, d.rightResponse, d.followUpActions, EmotionalSearchText(d))
  }

  function EmergencyToRow(d: EmergencyData): EmergencyRow {
    EmergencyRow(d.id, d.emergencyName, Some(d.emergencyNameEn), d.recognitionSigns,
                 d.immediateActions, d.whatNotToDo, d.whenToCallAmbulance, d.hospitalBagItems,
                 d.reassuranceScript, EmergencySearchText(d))
  }

  /** Every derived search text contains the fields it is built from. */
  lemma SearchTextCoversFields(f: FoodData, s: SymptomData, e: EmotionalData, m: EmergencyData)
    ensures Contains(FoodSearchText(f), f.name) && Contains(FoodSearchText(f), f.reason)
    ensures Contains(SymptomSearchText(s), s.symptomName) && Contains(SymptomSearchText(s), s.symptomNameEn)
    ensures e.wifeFeeling.Some? ==> Contains(EmotionalSearchText(e), e.wifeFeeling.value)
    ensures forall i :: 0 <= i < |m.recognitionSigns| ==>
              Contains(EmergencySearchText(m), m.recognitionSigns[i])
  {
    assert OccursAt(FoodSearchText(f), f.name, 0);
    assert OccursAt(FoodSearchText(f), f.reason, |FoodSearchText(f)| - |f.reason|);
    assert OccursAt(SymptomSearchText(s), s.symptomName, 0);
    assert OccursAt(SymptomSearchText(s), s.symptomNameEn, |s.symptomName| + 1);
    if e.wifeFeeling.Some? {
      var t := EmotionalSearchText(e);
      assert OccursAt(t, e.wifeFeeling.value, |t| - |e.wifeFeeling.value|);
    }
    var head := m.emergencyName + " " + m.emergencyNameEn + " ";
    assert EmergencySearchText(m) == head + Join(m.recognitionSigns, " ");
    forall i | 0 <= i < |m.recognitionSigns|
      ensures Contains(EmergencySearchText(m), m.recognitionSigns[i])
    {
      JoinContains(m.recognitionSigns, " ", i);
      var j := Join(m.recognitionSigns, " ");
      var k :| 0 <= k <= |j| && OccursAt(j, m.recognitionSigns[i], k);
      assert (head + j)[|head| + k..|head| + k + |m.recognitionSigns[i]|] == j[k..k + |m.recognitionSigns[i]|];
      assert OccursAt(head + j, m.recognitionSigns[i], |head| + k);
    }
  }

  lemma {:induction false} JoinContains(parts: seq<string>, sep: string, i: nat)
    requires i < |parts|
    ensures Contains(Join(parts, sep), parts[i])
    decreases |parts|
  {
    var j := Join(parts, sep);
    if |parts| == 1 {
      assert OccursAt(j, parts[0], 0);
    } else if i == 0 {
      assert OccursAt(j, parts[0], 0);
    } else {
      JoinContains(parts[1..], sep, i - 1);
      var rest := Join(parts[1..], sep);
      var head := parts[0] + sep;
      assert j == head + rest;
      var k :| 0 <= k <= |rest| && OccursAt(rest, parts[i], k);
      assert (head + rest)[|head| + k..|head| + k + |parts[i]|] == rest[k..k + |parts[i]|];
      assert OccursAt(j, parts[i], |head| + k);
    }
  }

  // ---------------------------------------------------------------- seeding

  /** The outcome of one seed call: the session afterwards and either the
      number of records processed or the error it rethrows. */
  datatype SeedOutcome = SeedOutcome(session: KbSession, count: Result<nat>)

  function MapFoodRows(foods: seq<FoodData>): (r: Option<seq<FoodRow>>)
    ensures r.None? <==> exists i :: 0 <= i < |foods| && FoodToRow(foods[i]).None?
    ensures r.Some? ==> (
      && |r.value| == |foods|
      && forall i :: 0 <= i < |foods| ==> r.value[i] == FoodToRow(foods[i]).value)
  {
    if |foods| == 0 then Some([])
    else
      match (FoodToRow(foods[0]), MapFoodRows(foods[1..]))
      case (Some(row), Some(rest)) =>
        assert forall i :: 1 <= i < |foods| ==> foods[i] == foods[1..][i - 1];
        Some([row] + rest)
      case (None, _) => None
      case (_, None) =>
        var i :| 0 <= i < |foods| - 1 && FoodToRow(foods[1..][i]).None?;
        assert FoodToRow(foods[i + 1]).None?;
        None
  }

  function FoodDataKey(d: FoodData): string { FoodId(d.name) }
  function SymptomDataKey(d: SymptomData): string { d.id }
  function EmotionalDataKey(d: EmotionalData): string { d.id }
  function EmergencyDataKey(d: EmergencyData): string { d.id }

  /** Record `j` is the last one carrying its key. */
  predicate LastOfKey<D>(data: seq<D>, dkey: D -> string, j: int) {
    0 <= j < |data| && forall k :: j < k < |data| ==> dkey(data[k]) != dkey(data[j])
  }

  /** Every record has a last record with the same key at or after it. */
  lemma {:induction false} LastOfKeyExists<D>(data: seq<D>, dkey: D -> string, i: nat)
    requires i < |data|
    ensures exists j :: LastOfKey(data, dkey, j) && dkey(data[j]) == dkey(data[i])
    decreases |data| - i
  {
    if !LastOfKey(data, dkey, i) {
      var k :| i < k < |data| && dkey(data[k]) == dkey(data[i]);
      LastOfKeyExists(data, dkey, k);
    }
  }

  /** The table contents a successful reseed leaves behind, given the row
      each record becomes: unique keys, exactly the records' keys, and the
      stored rows are precisely the rows of the last record of each key. */
  ghost predicate Reseeded<D, R>(table: seq<R>, data: seq<D>, rows: seq<R>, dkey: D -> string, rkey: R -> string) {
    && |rows| == |data|
    && KeysDistinct(table, rkey)
    && Keys(table, rkey) == Keys(data, dkey)
    && |table| == |Keys(data, dkey)|
    && (forall j :: LastOfKey(data, dkey, j) ==> rows[j] in table)
    && (forall i :: 0 <= i < |table| ==> exists j :: LastOfKey(data, dkey, j) && table[i] == rows[j])
  }

  /** `DELETE FROM t` followed by one `INSERT OR REPLACE` per record: the
      table ends up with unique keys, exactly the records' keys, one row
      per distinct key, and that row is the last record's. */
  lemma ReplaceTable<D, R>(data: seq<D>, rows: seq<R>, dkey: D -> string, rkey: R -> string)
    requires |rows| == |data|
    requires forall i :: 0 <= i < |data| ==> rkey(rows[i]) == dkey(data[i])
    ensures Reseeded(UpsertAll([], rows, rkey), data, rows, dkey, rkey)
    ensures |Keys(data, dkey)| <= |data|
  {
    var table := UpsertAll([], rows, rkey);
    UpsertAllKeys([], rows, rkey);
    KeysAlong(data, rows, dkey, rkey);
    ReplaceAllCount(rows, rkey);
    LastRowsStored(data, rows, dkey, rkey);
    StoredRowsAreLast(data, rows, dkey, rkey, table);
    ReseededIntro(table, data, rows, dkey, rkey);
  }

  lemma ReseededIntro<D, R>(table: seq<R>, data: seq<D>, rows: seq<R>, dkey: D -> string, rkey: R -> string)
    requires |rows| == |data|
    requires KeysDistinct(table, rkey)
    requires Keys(table, rkey) == Keys(data, dkey)
    requires |table| == |Keys(data, dkey)|
    requires forall j :: LastOfKey(data, dkey, j) ==> rows[j] in table
    requires forall i :: 0 <= i < |table| ==> exists j :: LastOfKey(data, dkey, j) && table[i] == rows[j]
    ensures Reseeded(table, data, rows, dkey, rkey)
  {
  }

  /** The row of the last record of each key is in the table. */
  lemma LastRowsStored<D, R>(data: seq<D>, rows: seq<R>, dkey: D -> string, rkey: R -> string)
    requires |rows| == |data|
    requires forall i :: 0 <= i < |data| ==> rkey(rows[i]) == dkey(data[i])
    ensures forall j :: LastOfKey(data, dkey, j) ==> rows[j] in UpsertAll([], rows, rkey)
  {
    forall j | LastOfKey(data, dkey, j) ensures rows[j] in UpsertAll([], rows, rkey) {
      assert forall k :: j < k < |rows| ==> rkey(rows[k]) == dkey(data[k]);
      UpsertAllLastWins([], rows, rkey, j);
    }
  }

  /** Every row in the table is the row of the last record of its key. */
  lemma StoredRowsAreLast<D, R>(data: seq<D>, rows: seq<R>, dkey: D -> string, rkey: R -> string, table: seq<R>)
    requires |rows| == |data|
    requires forall i :: 0 <= i < |data| ==> rkey(rows[i]) == dkey(data[i])
    requires KeysDistinct(table, rkey) && Keys(table, rkey) == Keys(data, dkey)
    requires forall j :: LastOfKey(data, dkey, j) ==> rows[j] in table
    ensures forall i :: 0 <= i < |table| ==> exists j :: LastOfKey(data, dkey, j) && table[i] == rows[j]
  {
    forall i | 0 <= i < |table|
      ensures exists j :: LastOfKey(data, dkey, j) && table[i] == rows[j]
    {
      StoredRowIsLast(data, rows, dkey, rkey, table, i);
    }
  }

  /** One stored row: its key belongs to some record, the last record with
      that key has its row stored, and keys are unique, so it is that row. */
  lemma StoredRowIsLast<D, R>(data: seq<D>, rows: seq<R>, dkey: D -> string, rkey: R -> string, table: seq<R>, i: nat)
    requires |rows| == |data|
    requires forall i :: 0 <= i < |data| ==> rkey(rows[i]) == dkey(data[i])
    requires KeysDistinct(table, rkey) && Keys(table, rkey) == Keys(data, dkey)
    requires forall j :: LastOfKey(data, dkey, j) ==> rows[j] in table
    requires i < |table|
    ensures exists j :: LastOfKey(data, dkey, j) && table[i] == rows[j]
  {
    assert rkey(table[i]) in Keys(data, dkey);
    var i0 :| 0 <= i0 < |data| && dkey(data[i0]) == rkey(table[i]);
    LastOfKeyExists(data, dkey, i0);
    var j :| LastOfKey(data, dkey, j) && dkey(data[j]) == dkey(data[i0]);
    var m :| 0 <= m < |table| && table[m] == rows[j];
    assert rkey(table[m]) == rkey(table[i]);
  }

  lemma KeysAlong<D, R>(data: seq<D>, rows: seq<R>, dkey: D -> string, rkey: R -> string)
    requires |rows| == |data|
    requires forall i :: 0 <= i < |data| ==> rkey(rows[i]) == dkey(data[i])
    ensures Keys(rows, rkey) == Keys(data, dkey)
  {
    forall k | k in Keys(rows, rkey) ensures k in Keys(data, dkey) {
      var i :| 0 <= i < |rows| && rkey(rows[i]) == k;
      assert dkey(data[i]) == k;
    }
    forall k | k in Keys(data, dkey) ensures k in Keys(rows, rkey) {
      var i :| 0 <= i < |data| && dkey(data[i]) == k;
      assert rkey(rows[i]) == k;
    }
  }

  /** The row each record becomes, in record order. */
  function SymptomRows(symptoms: seq<SymptomData>): (r: seq<SymptomRow>)
    ensures |r| == |symptoms| && forall i :: 0 <= i < |symptoms| ==> r[i] == SymptomToRow(symptoms[i])
  {
    seq(|symptoms|, i requires 0 <= i < |symptoms| => SymptomToRow(symptoms[i]))
  }

  function EmotionalRows(scenarios: seq<EmotionalData>): (r: seq<EmotionalRow>)
    ensures |r| == |scenarios| && forall i :: 0 <= i < |scenarios| ==> r[i] == EmotionalToRow(scenarios[i])
  {
    seq(|scenarios|, i requires 0 <= i < |scenarios| => EmotionalToRow(scenarios[i]))
  }

  function EmergencyRows(emergencies: seq<EmergencyData>): (r: seq<EmergencyRow>)
    ensures |r| == |emergencies| && forall i :: 0 <= i < |emergencies| ==> r[i] == EmergencyToRow(emergencies[i])
  {
    seq(|emergencies|, i requires 0 <= i < |emergencies| => EmergencyToRow(emergencies[i]))
  }

  /** `seedFoodData`. Inside one transaction: delete every food row, then
      `INSERT OR REPLACE` each record in order. A record whose safety level
      fails the CHECK, or a storage fault (`fault`), rolls the whole
      transaction back and rethrows; nothing is skipped record by record.
      Without a handle nothing is written and 0 is returned. */
  function SeedFoodData(s: KbSession, foods: seq<FoodData>, fault: bool): (r: SeedOutcome)
    ensures s.handle.None? ==> r == SeedOutcome(s, Ok(0))
    ensures r.count.Err? ==> r.session == s
    ensures s.handle.Some? ==>
      (r.count.Ok? <==> !fault && forall i :: 0 <= i < |foods| ==> ParseSafetyLevel(foods[i].safetyLevel).Some?)
    ensures s.handle.Some? && r.count.Ok? ==> (
      && r.count.value == |foods| && r.session.handle.Some?
      && r.session.handle.value == s.handle.value.(foods := r.session.handle.value.foods)
      && MapFoodRows(foods).Some?
      && Reseeded(r.session.handle.value.foods, foods, MapFoodRows(foods).value, FoodDataKey, FoodKey))
  {
    if s.handle.None? then SeedOutcome(s, Ok(0))
    else
      var rows := MapFoodRows(foods);
      if rows.None? then SeedOutcome(s, Err(ConstraintViolation))
      else if fault then SeedOutcome(s, Err(StorageFault))
      else
        ReplaceTable(foods, rows.value, FoodDataKey, FoodKey);
        SeedOutcome(KbSession(Some(s.handle.value.(foods := UpsertAll([], rows.value, FoodKey)))), Ok(|foods|))
  }

  /** What a successful food reseed leaves depends only on the records:
      nothing from the table's earlier contents survives. */
  lemma SeedFoodForgetsPrior(s1: KbSession, s2: KbSession, foods: seq<FoodData>)
    requires s1.handle.Some? && s2.handle.Some?
    requires SeedFoodData(s1, foods, false).count.Ok?
    ensures SeedFoodData(s2, foods, false).count.Ok?
    ensures SeedFoodData(s1, foods, false).session.handle.value.foods
         == SeedFoodData(s2, foods, false).session.handle.value.foods
  {
    var rows := MapFoodRows(foods);
    assert rows.Some?;
    assert SeedFoodData(s1, foods, false).session.handle.value.foods == UpsertAll([], rows.value, FoodKey);
    assert SeedFoodData(s2, foods, false).session.handle.value.foods == UpsertAll([], rows.value, FoodKey);
  }

  /** The stored row for a name is built from the last record with that
      name. */
  lemma SeedFoodLastRecordWins(s: KbSession, foods: seq<FoodData>, j: nat)
    requires s.handle.Some? && SeedFoodData(s, foods, false).count.Ok?
    requires j < |foods|
    requires forall k :: j < k < |foods| ==> FoodId(foods[k].name) != FoodId(foods[j].name)
    ensures FoodToRow(foods[j]).Some?
    ensures FoodToRow(foods[j]).value in SeedFoodData(s, foods, false).session.handle.value.foods
  {
    var rows := MapFoodRows(foods).value;
    UpsertAllLastWins([], rows, FoodKey, j);
  }

  /** Two records with the same name: the count says 2, the table holds 1. */
  lemma DuplicateFoodNamesCollapse(s: KbSession, a: FoodData, b: FoodData)
    requires s.handle.Some? && a.name == b.name
    requires ParseSafetyLevel(a.safetyLevel).Some? && ParseSafetyLevel(b.safetyLevel).Some?
    ensures SeedFoodData(s, [a, b], false).count == Ok(2)
    ensures |SeedFoodData(s, [a, b], false).session.handle.value.foods| == 1
  {
    assert FoodDataKey(a) == FoodDataKey(b);
    KeysOfPair(a, b, FoodDataKey);
  }

  lemma KeysOfPair<D>(x: D, y: D, dkey: D -> string)
    requires dkey(x) == dkey(y)
    ensures |Keys([x, y], dkey)| == 1
  {
    assert Keys([x, y], dkey) == {dkey(x)} by {
      assert [x, y][..1] == [x];
    }
  }

  /** `seedSymptomData`: the same transaction shape, keyed by the record id. */
  function SeedSymptomData(s: KbSession, symptoms: seq<SymptomData>, fault: bool): (r: SeedOutcome)
    ensures s.handle.None? ==> r == SeedOutcome(s, Ok(0))
    ensures r.count.Err? ==> r.session == s
    ensures s.handle.Some? ==> (r.count.Ok? <==> !fault)
    ensures s.handle.Some? && r.count.Ok? ==> (
      && r.count.value == |symptoms| && r.session.handle.Some?
      && r.session.handle.value == s.handle.value.(symptoms := r.session.handle.value.symptoms)
      && Reseeded(r.session.handle.value.symptoms, symptoms, SymptomRows(symptoms), SymptomDataKey, SymptomKey))
  {
    if s.handle.None? then SeedOutcome(s, Ok(0))
    else if fault then SeedOutcome(s, Err(StorageFault))
    else
      var rows := SymptomRows(symptoms);
      ReplaceTable(symptoms, rows, SymptomDataKey, SymptomKey);
      SeedOutcome(KbSession(Some(s.handle.value.(symptoms := UpsertAll([], rows, SymptomKey)))), Ok(|symptoms|))
  }

  /** `seedEmotionalData`. */
  function SeedEmotionalData(s: KbSession, scenarios: seq<EmotionalData>, fault: bool): (r: SeedOutcome)
    ensures s.handle.None? ==> r == SeedOutcome(s, Ok(0))
    ensures r.count.Err? ==> r.session == s
    ensures s.handle.Some? ==> (r.count.Ok? <==> !fault)
    ensures s.handle.Some? && r.count.Ok? ==> (
      && r.count.value == |scenarios| && r.session.handle.Some?
      && r.session.handle.value == s.handle.value.(emotional := r.session.handle.value.emotional)
      && Reseeded(r.session.handle.value.emotional, scenarios, EmotionalRows(scenarios), EmotionalDataKey, EmotionalKey))
  {
    if s.handle.None? then SeedOutcome(s, Ok(0))
    else if fault then SeedOutcome(s, Err(StorageFault))
    else
      var rows := EmotionalRows(scenarios);
      ReplaceTable(scenarios, rows, EmotionalDataKey, EmotionalKey);
      SeedOutcome(KbSession(Some(s.handle.value.(emotional := UpsertAll([], rows, EmotionalKey)))), Ok(|scenarios|))
  }

  /** `seedEmergencyData`. */
  function SeedEmergencyData(s: KbSession, emergencies: seq<EmergencyData>, fault: bool): (r: SeedOutcome)
    ensures s.handle.None? ==> r == SeedOutcome(s, Ok(0))
    ensures r.count.Err? ==> r.session == s
    ensures s.handle.Some? ==> (r.count.Ok? <==> !fault)
    ensures s.handle.Some? && r.count.Ok? ==> (
      && r.count.value == |emergencies| && r.session.handle.Some?
      && r.session.handle.value == s.handle.value.(emergencies := r.session.handle.value.emergencies)
      && Reseeded(r.session.handle.value.emergencies, emergencies, EmergencyRows(emergencies), EmergencyDataKey, EmergencyKey))
  {
    if s.handle.None? then SeedOutcome(s, Ok(0))
    else if fault then SeedOutcome(s, Err(StorageFault))
    else
      var rows := EmergencyRows(emergencies);
      ReplaceTable(emergencies, rows, EmergencyDataKey, EmergencyKey);
      SeedOutcome(KbSession(Some(s.handle.value.(emergencies := UpsertAll([], rows, EmergencyKey)))), Ok(|emergencies|))
  }

  // ----------------------------------------------------------------- stats

  datatype KbStats = KbStats(foods: nat, symptoms: nat, emotional: nat, emergencies: nat)

  const ZeroStats := KbStats(0, 0, 0, 0)

  /** `getKbStats`: the row count of each content table. */
  function GetKbStats(s: KbSession): (r: KbStats)
    ensures s.handle.None? ==> r == ZeroStats
    ensures s.handle.Some? ==> (
      && r.foods == |s.handle.value.foods| && r.symptoms == |s.handle.value.symptoms|
      && r.emotional == |s.handle.value.emotional| && r.emergencies == |s.handle.value.emergencies|)
  {
    if s.handle.None? then ZeroStats
    else
      var db := s.handle.value;
      KbStats(|db.foods|, |db.symptoms|, |db.emotional|, |db.emergencies|)
  }
}
