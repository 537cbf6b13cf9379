/** Knowledge-base lookups (app/src/services/kb/kbService.ts): the full-text
    query sanitiser, the four searches that try the full-text index first and
    fall back to `LIKE` substring matching, and the row-to-entity
    conversions. The FTS5 index itself (tokenising, `MATCH`, bm25 ranking) is
    an oracle: for one query it either throws or yields rowids, best first. */
module KbService {
  import opened Wrappers
  import opened Js
  import opened Seqs
  import opened Sql
  import opened KbTypes
  import opened KnowledgeDb

  // ------------------------------------------------------- row conversions

  /** `rowToFoodItem`: NULL text becomes `''`, NULL trimester notes stay
      absent. */
  function RowToFoodItem(r: FoodRow): FoodItem {
    FoodItem(r.id, r.name, r.nameEn.GetOr(""), r.category, r.safetyLevel, r.reason,
             r.dadTip.GetOr(""), r.trimesterNotes)
  }

  /** `rowToSymptomTree`: a NULL action list reads back as empty. */
  function RowToSymptomTree(r: SymptomRow): SymptomDecisionTree {
    SymptomDecisionTree(r.id, r.symptomName, r.symptomNameEn.GetOr(""), r.questions,
                        r.decisionPaths, r.dadActions.GetOr([]))
  }

  function RowToEmotionalScenario(r: EmotionalRow): EmotionalScenario {
    EmotionalScenario(r.id, r.scenarioName, r.scenarioNameEn.GetOr(""), r.trigger,
                      r.wifeFeeling.GetOr(""), r.wrongResponse.GetOr(""), r.rightResponse,
                      r.followUpActions.GetOr(""))
  }

  function RowToEmergency(r: EmergencyRow): EmergencyProcedure {
    EmergencyProcedure(r.id, r.emergencyName, r.emergencyNameEn.GetOr(""), r.recognitionSigns,
                       r.immediateActions, r.whatNotToDo.GetOr([]), r.whenToCallAmbulance.GetOr([]),
                       r.hospitalBagItems.GetOr([]), r.reassuranceScript.GetOr(""))
  }

  /** Reading back a seeded record gives the record's own fields, with
      absent optional text as `''` and absent optional lists as empty. */
  lemma SeedReadBack(f: FoodData, s: SymptomData, e: EmotionalData, m: EmergencyData)
    ensures FoodToRow(f).Some? ==>
      var item := RowToFoodItem(FoodToRow(f).value);
      && item.id == FoodId(f.name) && item.name == f.name && item.nameEn == f.nameEn
      && item.category == f.category && SafetyLevelName(item.safetyLevel) == f.safetyLevel
      && item.reason == f.reason && item.dadTip == f.dadTip.GetOr("")
      && item.trimesterNotes == f.trimesterNotes
    ensures
      var tree := RowToSymptomTree(SymptomToRow(s));
      && tree.id == s.id && tree.symptomName == s.symptomName && tree.symptomNameEn == s.symptomNameEn
      && tree.questions == s.questions && tree.decisionPaths == s.decisionPaths
      && tree.dadActions == s.dadActions.GetOr([])
    ensures
      var sc := RowToEmotionalScenario(EmotionalToRow(e));
      && sc.id == e.id && sc.trigger == e.trigger && sc.wifeFeeling == e.wifeFeeling.GetOr("")
      && sc.wrongResponse == e.wrongResponse.GetOr("") && sc.rightResponse == e.rightResponse
      && sc.followUpActions == e.followUpActions.GetOr("")
    ensures
      var p := RowToEmergency(EmergencyToRow(m));
      && p.id == m.id && p.recognitionSigns == m.recognitionSigns
      && p.immediateActions == m.immediateActions && p.whatNotToDo == m.whatNotToDo.GetOr([])
      && p.whenToCallAmbulance == m.whenToCallAmbulance.GetOr([])
      && p.hospitalBagItems == m.hospitalBagItems.GetOr([])
      && p.reassuranceScript == m.reassuranceScript.GetOr("")
  {
  }

  // ------------------------------------------------------ FTS query escape

  /** The characters `escapeFtsQuery` blanks out: FTS5 operators. */
  predicate IsFtsSpecial(c: char) {
    c == '"' || c == '-' || c == '*' || c == '(' || c == ')' || c == '^' || c == '~' || c == ':'
  }

  /** Nothing in `s` but whitespace and FTS operator characters. */
  predicate OnlyBlankOrSpecial(s: string) {
    forall i :: 0 <= i < |s| ==> IsWhitespace(s[i]) || IsFtsSpecial(s[i])
  }

  predicate NoSpecial(s: string) {
    forall i :: 0 <= i < |s| ==> !IsFtsSpecial(s[i])
  }

  /** No two whitespace characters in a row. */
  predicate NoDoubleBlank(s: string) {
    forall i :: 0 <= i < |s| - 1 ==> !IsWhitespace(s[i]) || !IsWhitespace(s[i + 1])
  }

  /** `.replace(/["\-*()^~:]/g, ' ')`. */
  function BlankSpecials(s: string): (r: string)
    ensures |r| == |s|
    ensures forall i :: 0 <= i < |s| ==> r[i] == if IsFtsSpecial(s[i]) then ' ' else s[i]
  {
    seq(|s|, i requires 0 <= i < |s| => if IsFtsSpecial(s[i]) then ' ' else s[i])
  }

  /** `.replace(/\s+/g, ' ')`: every maximal whitespace run becomes one
      space. */
  function CollapseBlanks(s: string): (r: string)
    ensures |r| <= |s|
    ensures |r| > 0 <==> |s| > 0
    ensures |r| > 0 ==> (IsWhitespace(r[0]) <==> IsWhitespace(s[0]))
    ensures forall i :: 0 <= i < |r| ==> r[i] == ' ' || (!IsWhitespace(r[i]) && r[i] in s)
    ensures NoDoubleBlank(r)
    ensures AllWhitespace(r) <==> AllWhitespace(s)
    decreases |s|
  {
    if |s| == 0 then []
    else if IsWhitespace(s[0]) then
      var n := LeadingBlanks(s);
      var rest := CollapseBlanks(s[n..]);
      assert forall c :: c in s[n..] ==> c in s;
      AllWhitespaceSplit(s, n);
      AllWhitespaceCons(' ', rest);
      [' '] + rest
    else
      var rest := CollapseBlanks(s[1..]);
      assert forall c :: c in s[1..] ==> c in s;
      assert !AllWhitespace(s);
      AllWhitespaceCons(s[0], rest);
      [s[0]] + rest
  }

  /** `escapeFtsQuery`: trim; blank the FTS operators; collapse whitespace;
      trim again; wrap in double quotes as one phrase, or give `''`. */
  function EscapeFtsQuery(query: string): (r: string)
    ensures r != "" ==> |r| >= 3 && r[0] == '"' && r[|r| - 1] == '"'
    ensures r == "" || !AllWhitespace(query)
  {
    var trimmed := Trim(query);
    if trimmed == [] then ""
    else
      var escaped := Trim(CollapseBlanks(BlankSpecials(trimmed)));
      if escaped == [] then "" else "\"" + escaped + "\""
  }

  lemma BlankEnds(s: string, r: string, a: int)
    requires TrimmedAt(s, r, a)
    ensures OnlyBlankOrSpecial(s) <==> OnlyBlankOrSpecial(r)
  {
    if OnlyBlankOrSpecial(r) {
      forall i | 0 <= i < |s| ensures IsWhitespace(s[i]) || IsFtsSpecial(s[i]) {
        if i < a {
          assert s[i] == s[..a][i];
        } else if i < a + |r| {
          assert s[i] == r[i - a];
        } else {
          assert s[i] == s[a + |r|..][i - a - |r|];
        }
      }
    }
    if OnlyBlankOrSpecial(s) {
      forall i | 0 <= i < |r| ensures IsWhitespace(r[i]) || IsFtsSpecial(r[i]) {
        assert r[i] == s[a + i];
      }
    }
  }

  /** The sanitiser gives `''` exactly for input made only of whitespace and
      FTS operator characters (the empty string included). */
  lemma EscapeEmptyIff(query: string)
    ensures EscapeFtsQuery(query) == "" <==> OnlyBlankOrSpecial(query)
  {
    var trimmed := Trim(query);
    BlankEnds(query, trimmed, LeadingBlanks(query));
    if trimmed != [] {
      var blanked := BlankSpecials(trimmed);
      assert OnlyBlankOrSpecial(trimmed) <==> AllWhitespace(blanked);
      var collapsed := CollapseBlanks(blanked);
      assert Trim(collapsed) == [] <==> AllWhitespace(collapsed);
    } else {
      assert AllWhitespace(query);
    }
  }

  /** A non-empty sanitised query is one double-quoted phrase with no
      operator characters, no blank at either end and no blank runs. */
  lemma EscapeShape(query: string)
    requires EscapeFtsQuery(query) != ""
    ensures var r := EscapeFtsQuery(query);
      && |r| >= 3 && r[0] == '"' && r[|r| - 1] == '"'
      && var e := r[1..|r| - 1];
      && NoSpecial(e) && NoDoubleBlank(e)
      && !IsWhitespace(e[0]) && !IsWhitespace(e[|e| - 1])
  {
    var collapsed := CollapseBlanks(BlankSpecials(Trim(query)));
    CollapsedHasNoSpecial(Trim(query));
    var e := Trim(collapsed);
    TrimKeepsShape(collapsed);
    var r := EscapeFtsQuery(query);
    assert r == "\"" + e + "\"";
    assert r[1..|r| - 1] == e;
  }

  lemma CollapsedHasNoSpecial(s: string)
    ensures NoSpecial(CollapseBlanks(BlankSpecials(s)))
  {
    var blanked := BlankSpecials(s);
    var collapsed := CollapseBlanks(blanked);
    forall i | 0 <= i < |collapsed| ensures !IsFtsSpecial(collapsed[i]) {
      if collapsed[i] != ' ' {
        var j :| 0 <= j < |blanked| && blanked[j] == collapsed[i];
      }
    }
  }

  /** Trimming keeps the no-operator and no-blank-run properties. */
  lemma TrimKeepsShape(s: string)
    requires NoSpecial(s) && NoDoubleBlank(s)
    ensures NoSpecial(Trim(s)) && NoDoubleBlank(Trim(s))
  {
    var e := Trim(s);
    var a := LeadingBlanks(s);
    assert e == s[a..a + |e|];
    forall i | 0 <= i < |e| ensures !IsFtsSpecial(e[i]) {
      assert e[i] == s[a + i];
    }
    forall i | 0 <= i < |e| - 1 ensures !IsWhitespace(e[i]) || !IsWhitespace(e[i + 1]) {
      assert e[i] == s[a + i] && e[i + 1] == s[a + i + 1];
    }
  }

  // ---------------------------------------------------------------- search

  /** What the full-text index does with one `MATCH` query. */
  datatype IndexOutcome = IndexFailed | IndexHits(rowids: seq<nat>)

  /** `KbSearchResult<T>`. */
  datatype SearchResult<T> = SearchResult(items: seq<T>, query: string, totalMatches: nat)

  /** `query.toLowerCase().trim()`. */
  function NormalizeQuery(query: string): (r: string)
    ensures |r| <= |query|
    ensures r != [] ==> !IsWhitespace(r[0]) && !IsWhitespace(r[|r| - 1])
    ensures r == [] <==> AllWhitespace(Lower(query))
  {
    Trim(Lower(query))
  }

  /** `JOIN ... ON t.rowid = fts.rowid`: the table rows the index names, in
      the index's order. */
  function Joined<R(==)>(table: seq<R>, rowids: seq<nat>): (rows: seq<R>)
    ensures |rows| <= |rowids|
    ensures forall i :: 0 <= i < |rows| ==> rows[i] in table
  {
    if |rowids| == 0 then []
    else
      var rest := Joined(table, rowids[1..]);
      if rowids[0] < |table| then [table[rowids[0]]] + rest else rest
  }

  /** The rows the index query returns, or `None` when the index is skipped
      (blank sanitised query), throws, or returns no row. */
  function IndexRows<R(==)>(table: seq<R>, fts: string, index: IndexOutcome, limit: int): (r: Option<seq<R>>)
    ensures r.Some? ==> fts != "" && index.IndexHits? && |r.value| > 0
  {
    if fts == "" then None
    else match index
      case IndexFailed => None
      case IndexHits(ids) =>
        var rows := Limit(Joined(table, ids), limit);
        if |rows| > 0 then Some(rows) else None
  }

  /** Some searched column is non-NULL and matches the pattern. */
  predicate AnyFieldLike(p: string, fields: seq<Option<string>>) {
    exists i :: 0 <= i < |fields| && LikeField(p, fields[i])
  }

  /** The fallback query: `WHERE f1 LIKE p OR f2 LIKE p ... LIMIT ?` with
      `p = '%' || query || '%'`, rows in table order. */
  function LikeRows<R(==)>(table: seq<R>, nq: string, limit: int, fields: R -> seq<Option<string>>): (rows: seq<R>)
  {
    Limit(Matching(table, nq, fields), limit)
  }

  /** The fallback query before `LIMIT`: exactly the rows with a matching
      searched column, in table order. */
  function Matching<R(==)>(table: seq<R>, nq: string, fields: R -> seq<Option<string>>): (rows: seq<R>)
    ensures IsSubsequence(rows, table)
    ensures forall i :: 0 <= i < |rows| ==> AnyFieldLike(Surround(nq), fields(rows[i]))
    ensures forall k :: 0 <= k < |table| && AnyFieldLike(Surround(nq), fields(table[k])) ==> table[k] in rows
  {
    Filter(table, row => AnyFieldLike(Surround(nq), fields(row)))
  }

  /** The rows one list search returns: indexed rows when the index yields
      any, the `LIKE` rows otherwise. An index failure is swallowed. */
  function SearchRows<R(==)>(table: seq<R>, nq: string, limit: int, index: IndexOutcome,
                             fields: R -> seq<Option<string>>): (rows: seq<R>)
    ensures limit >= 0 ==> |rows| <= limit
    ensures forall i :: 0 <= i < |rows| ==> rows[i] in table
  {
    match IndexRows(table, EscapeFtsQuery(nq), index, limit)
    case Some(rows) => rows
    case None => LikeRows(table, nq, limit, fields)
  }

  /** Every fallback row matches on one of the searched columns. */
  lemma LikeRowsSound<R>(table: seq<R>, nq: string, limit: int, fields: R -> seq<Option<string>>)
    ensures forall i :: 0 <= i < |LikeRows(table, nq, limit, fields)| ==>
      AnyFieldLike(Surround(nq), fields(LikeRows(table, nq, limit, fields)[i]))
  {
  }

  /** When the limit does not bite, every matching row is returned. */
  lemma LikeRowsComplete<R>(table: seq<R>, nq: string, limit: int, fields: R -> seq<Option<string>>, k: nat)
    requires k < |table| && AnyFieldLike(Surround(nq), fields(table[k]))
    requires limit < 0 || |Matching(table, nq, fields)| <= limit
    ensures table[k] in LikeRows(table, nq, limit, fields)
  {
  }

  /** For a query without `%` or `_`, a row matches exactly when one of its
      non-NULL searched columns contains the query, ignoring ASCII case. */
  lemma FallbackIsSubstring(nq: string, fields: seq<Option<string>>)
    requires WildcardFree(nq)
    ensures AnyFieldLike(Surround(nq), fields) <==>
      exists i :: 0 <= i < |fields| && fields[i].Some? && Contains(Lower(fields[i].value), Lower(nq))
  {
    forall i | 0 <= i < |fields| && fields[i].Some?
      ensures LikeField(Surround(nq), fields[i]) <==> Contains(Lower(fields[i].value), Lower(nq))
    {
      LikeSurroundContains(nq, fields[i].value);
    }
  }

  /** A blank query never reaches the index, and its pattern `'%%'` matches
      every row that has a non-NULL searched column: the first `limit` such
      rows come back, not none. */
  lemma BlankQueryTakesFirstRows<R>(table: seq<R>, query: string, limit: int, index: IndexOutcome,
                                         fields: R -> seq<Option<string>>)
    requires AllWhitespace(Lower(query))
    requires forall k :: 0 <= k < |table| ==> |fields(table[k])| > 0 && fields(table[k])[0].Some?
    ensures NormalizeQuery(query) == []
    ensures SearchRows(table, NormalizeQuery(query), limit, index, fields) == Limit(table, limit)
  {
    var nq := NormalizeQuery(query);
    EscapeEmptyIff(nq);
    forall k | 0 <= k < |table| ensures AnyFieldLike(Surround(nq), fields(table[k])) {
      LikeEverything(fields(table[k])[0].value);
    }
  }

  /** The index is used exactly when the sanitised query is non-blank and the
      index answers with at least one row; a throwing index falls back. */
  lemma IndexOrFallback<R>(table: seq<R>, nq: string, limit: int, index: IndexOutcome,
                              fields: R -> seq<Option<string>>)
    ensures index.IndexFailed? ==> SearchRows(table, nq, limit, index, fields) == LikeRows(table, nq, limit, fields)
    ensures OnlyBlankOrSpecial(nq) ==> SearchRows(table, nq, limit, index, fields) == LikeRows(table, nq, limit, fields)
    ensures !OnlyBlankOrSpecial(nq) && index.IndexHits? && |Limit(Joined(table, index.rowids), limit)| > 0
      ==> SearchRows(table, nq, limit, index, fields) == Limit(Joined(table, index.rowids), limit)
    ensures index.IndexHits? && |Limit(Joined(table, index.rowids), limit)| == 0
      ==> SearchRows(table, nq, limit, index, fields) == LikeRows(table, nq, limit, fields)
  {
    EscapeEmptyIff(nq);
  }

  function FoodFields(r: FoodRow): seq<Option<string>> {
    [Some(r.name), r.nameEn, Some(r.category)]
  }

  function SymptomFields(r: SymptomRow): seq<Option<string>> {
    [Some(r.symptomName), r.symptomNameEn, Some(r.searchText)]
  }

  function EmotionalFields(r: EmotionalRow): seq<Option<string>> {
    [Some(r.scenarioName), Some(r.trigger), r.wifeFeeling]
  }

  function EmergencyFields(r: EmergencyRow): seq<Option<string>> {
    [Some(r.emergencyName), Some(r.searchText)]
  }

  /** The shared envelope of the list searches: no handle gives the raw
      query and nothing; otherwise the normalised query, at most `limit`
      items, and a count equal to the number of items. */
  predicate WellFormed<T>(r: SearchResult<T>, hasDb: bool, query: string, limit: int) {
    && r.totalMatches == |r.items|
    && (!hasDb ==> r.items == [] && r.query == query)
    && (hasDb ==> r.query == NormalizeQuery(query))
    && (limit >= 0 ==> |r.items| <= limit)
  }

  /** Rows drawn from a table convert to items drawn from the converted
      table. */
  lemma ConvertedFromTable<R, T>(rows: seq<R>, table: seq<R>, conv: R -> T)
    requires forall i :: 0 <= i < |rows| ==> rows[i] in table
    ensures forall i :: 0 <= i < |rows| ==> Map(rows, conv)[i] in Map(table, conv)
  {
    forall i | 0 <= i < |rows| ensures Map(rows, conv)[i] in Map(table, conv) {
      var k :| 0 <= k < |table| && table[k] == rows[i];
      assert Map(table, conv)[k] == conv(rows[i]);
    }
  }

  /** The list-search envelope over one table. */
  function SearchList<R(==), T>(s: KbSession, table: seq<R>, query: string, limit: int, index: IndexOutcome,
                                fields: R -> seq<Option<string>>, conv: R -> T): (r: SearchResult<T>)
    ensures WellFormed(r, s.handle.Some?, query, limit)
    ensures forall i :: 0 <= i < |r.items| ==> r.items[i] in Map(table, conv)
    ensures s.handle.Some? ==> r.items == Map(SearchRows(table, NormalizeQuery(query), limit, index, fields), conv)
  {
    if s.handle.None? then SearchResult([], query, 0)
    else
      var nq := NormalizeQuery(query);
      var rows := SearchRows(table, nq, limit, index, fields);
      ConvertedFromTable(rows, table, conv);
      SearchResult(Map(rows, conv), nq, |rows|)
  }

  /** `searchFood`: columns `name`, `name_en`, `category`. */
  function SearchFood(s: KbSession, query: string, limit: int, index: IndexOutcome): (r: SearchResult<FoodItem>)
    ensures WellFormed(r, s.handle.Some?, query, limit)
    ensures s.handle.Some? ==> forall i :: 0 <= i < |r.items| ==>
      r.items[i] in Map(s.handle.value.foods, RowToFoodItem)
    ensures s.handle.Some? ==>
      r.items == Map(SearchRows(s.handle.value.foods, NormalizeQuery(query), limit, index, FoodFields), RowToFoodItem)
  {
    var table := if s.handle.Some? then s.handle.value.foods else [];
    SearchList(s, table, query, limit, index, FoodFields, RowToFoodItem)
  }

  /** `searchSymptom`: columns `symptom_name`, `symptom_name_en`,
      `search_text`. */
  function SearchSymptom(s: KbSession, query: string, limit: int, index: IndexOutcome): (r: SearchResult<SymptomDecisionTree>)
    ensures WellFormed(r, s.handle.Some?, query, limit)
    ensures s.handle.Some? ==> forall i :: 0 <= i < |r.items| ==>
      r.items[i] in Map(s.handle.value.symptoms, RowToSymptomTree)
    ensures s.handle.Some? ==>
      r.items == Map(SearchRows(s.handle.value.symptoms, NormalizeQuery(query), limit, index, SymptomFields), RowToSymptomTree)
  {
    var table := if s.handle.Some? then s.handle.value.symptoms else [];
    SearchList(s, table, query, limit, index, SymptomFields, RowToSymptomTree)
  }

  /** `searchEmotional`: columns `scenario_name`, `trigger`, `wife_feeling`. */
  function SearchEmotional(s: KbSession, query: string, limit: int, index: IndexOutcome): (r: SearchResult<EmotionalScenario>)
    ensures WellFormed(r, s.handle.Some?, query, limit)
    ensures s.handle.Some? ==> forall i :: 0 <= i < |r.items| ==>
      r.items[i] in Map(s.handle.value.emotional, RowToEmotionalScenario)
    ensures s.handle.Some? ==>
      r.items == Map(SearchRows(s.handle.value.emotional, NormalizeQuery(query), limit, index, EmotionalFields), RowToEmotionalScenario)
  {
    var table := if s.handle.Some? then s.handle.value.emotional else [];
    SearchList(s, table, query, limit, index, EmotionalFields, RowToEmotionalScenario)
  }

  /** `searchEmergency`: the single best row, from the index or else from
      `emergency_name` / `search_text` matching, as `LIMIT 1`. */
  function SearchEmergency(s: KbSession, query: string, index: IndexOutcome): (r: Option<EmergencyProcedure>)
    ensures s.handle.None? ==> r.None?
    ensures r.Some? ==> r.value in Map(s.handle.value.emergencies, RowToEmergency)
    ensures s.handle.Some? ==> (r.None? <==> SearchRows(s.handle.value.emergencies, NormalizeQuery(query), 1, index, EmergencyFields) == [])
    ensures r.Some? ==>
      r.value == RowToEmergency(SearchRows(s.handle.value.emergencies, NormalizeQuery(query), 1, index, EmergencyFields)[0])
  {
    if s.handle.None? then None
    else
      var rows := SearchRows(s.handle.value.emergencies, NormalizeQuery(query), 1, index, EmergencyFields);
      if |rows| == 0 then None
      else
        ConvertedFromTable(rows, s.handle.value.emergencies, RowToEmergency);
        assert Map(rows, RowToEmergency)[0] == RowToEmergency(rows[0]);
        Some(RowToEmergency(rows[0]))
  }

  /** An emergency whose recognition signs mention the query is found by
      the fallback whenever the index gives nothing. */
  lemma EmergencyFoundBySign(s: KbSession, query: string, m: EmergencyData, i: nat)
    requires s.handle.Some? && EmergencyToRow(m) in s.handle.value.emergencies
    requires i < |m.recognitionSigns|
    requires WildcardFree(NormalizeQuery(query))
    requires Contains(Lower(m.recognitionSigns[i]), Lower(NormalizeQuery(query)))
    ensures SearchEmergency(s, query, IndexFailed).Some?
  {
    var nq := NormalizeQuery(query);
    var row := EmergencyToRow(m);
    var table := s.handle.value.emergencies;
    SignInSearchText(m, i);
    LowerContains(row.searchText, m.recognitionSigns[i]);
    ContainsTrans(Lower(row.searchText), Lower(m.recognitionSigns[i]), Lower(nq));
    FallbackIsSubstring(nq, EmergencyFields(row));
    assert EmergencyFields(row)[1] == Some(row.searchText);
    var k :| 0 <= k < |table| && table[k] == row;
    FallbackNonEmpty(table, nq, 1, EmergencyFields, k);
  }

  /** With the index failed, one matching row is enough for the fallback to
      return something under any positive limit. */
  lemma FallbackNonEmpty<R>(table: seq<R>, nq: string, limit: int, fields: R -> seq<Option<string>>, k: nat)
    requires k < |table| && AnyFieldLike(Surround(nq), fields(table[k]))
    requires limit > 0
    ensures SearchRows(table, nq, limit, IndexFailed, fields) != []
  {
    assert table[k] in Matching(table, nq, fields);
  }

  lemma SignInSearchText(m: EmergencyData, i: nat)
    requires i < |m.recognitionSigns|
    ensures Contains(EmergencySearchText(m), m.recognitionSigns[i])
  {
    SearchTextCoversFields(FoodData([], [], [], [], [], None, None),
                           SymptomData([], [], [], [], [], None),
                           EmotionalData([], [], [], [], None, None, [], None), m);
  }

  /** A stored row one of whose searched columns contains a wildcard-free
      query is returned by the fallback, when the limit does not bite. */
  lemma FoundByColumn<R>(table: seq<R>, nq: string, limit: int, fields: R -> seq<Option<string>>, row: R, c: nat)
    requires row in table && WildcardFree(nq)
    requires c < |fields(row)| && fields(row)[c].Some?
    requires Contains(Lower(fields(row)[c].value), Lower(nq))
    requires limit < 0 || |Matching(table, nq, fields)| <= limit
    ensures row in SearchRows(table, nq, limit, IndexFailed, fields)
  {
    FallbackIsSubstring(nq, fields(row));
    var k :| 0 <= k < |table| && table[k] == row;
    LikeRowsComplete(table, nq, limit, fields, k);
  }

  /** A food whose name, English name or category contains the query is
      found when the index gives nothing. */
  lemma FoodFound(s: KbSession, query: string, limit: int, row: FoodRow)
    requires s.handle.Some? && row in s.handle.value.foods
    requires WildcardFree(NormalizeQuery(query))
    requires var q := Lower(NormalizeQuery(query));
      || Contains(Lower(row.name), q)
      || (row.nameEn.Some? && Contains(Lower(row.nameEn.value), q))
      || Contains(Lower(row.category), q)
    requires limit < 0 || |Matching(s.handle.value.foods, NormalizeQuery(query), FoodFields)| <= limit
    ensures RowToFoodItem(row) in SearchFood(s, query, limit, IndexFailed).items
  {
    var nq := NormalizeQuery(query);
    var table := s.handle.value.foods;
    var c :=
      if Contains(Lower(row.name), Lower(nq)) then 0 else
      if row.nameEn.Some? && Contains(Lower(row.nameEn.value), Lower(nq)) then 1 else
      2;
    FoundByColumn(table, nq, limit, FoodFields, row, c);
    var rows := SearchRows(table, nq, limit, IndexFailed, FoodFields);
    var k :| 0 <= k < |rows| && rows[k] == row;
    assert Map(rows, RowToFoodItem)[k] == RowToFoodItem(row);
  }

  /** A symptom whose name, English name or search text contains the query
      is found when the index gives nothing. */
  lemma SymptomFound(s: KbSession, query: string, limit: int, row: SymptomRow)
    requires s.handle.Some? && row in s.handle.value.symptoms
    requires WildcardFree(NormalizeQuery(query))
    requires var q := Lower(NormalizeQuery(query));
      || Contains(Lower(row.symptomName), q)
      || (row.symptomNameEn.Some? && Contains(Lower(row.symptomNameEn.value), q))
      || Contains(Lower(row.searchText), q)
    requires limit < 0 || |Matching(s.handle.value.symptoms, NormalizeQuery(query), SymptomFields)| <= limit
    ensures RowToSymptomTree(row) in SearchSymptom(s, query, limit, IndexFailed).items
  {
    var nq := NormalizeQuery(query);
    var table := s.handle.value.symptoms;
    var c :=
      if Contains(Lower(row.symptomName), Lower(nq)) then 0 else
      if row.symptomNameEn.Some? && Contains(Lower(row.symptomNameEn.value), Lower(nq)) then 1 else
      2;
    FoundByColumn(table, nq, limit, SymptomFields, row, c);
    var rows := SearchRows(table, nq, limit, IndexFailed, SymptomFields);
    var k :| 0 <= k < |rows| && rows[k] == row;
    assert Map(rows, RowToSymptomTree)[k] == RowToSymptomTree(row);
  }

  /** A scenario whose name, trigger or feeling contains the query is found
      when the index gives nothing. */
  lemma EmotionalFound(s: KbSession, query: string, limit: int, row: EmotionalRow)
    requires s.handle.Some? && row in s.handle.value.emotional
    requires WildcardFree(NormalizeQuery(query))
    requires var q := Lower(NormalizeQuery(query));
      || Contains(Lower(row.scenarioName), q)
      || Contains(Lower(row.trigger), q)
      || (row.wifeFeeling.Some? && Contains(Lower(row.wifeFeeling.value), q))
    requires limit < 0 || |Matching(s.handle.value.emotional, NormalizeQuery(query), EmotionalFields)| <= limit
    ensures RowToEmotionalScenario(row) in SearchEmotional(s, query, limit, IndexFailed).items
  {
    var nq := NormalizeQuery(query);
    var table := s.handle.value.emotional;
    var c :=
      if Contains(Lower(row.scenarioName), Lower(nq)) then 0 else
      if Contains(Lower(row.trigger), Lower(nq)) then 1 else
      2;
    FoundByColumn(table, nq, limit, EmotionalFields, row, c);
    var rows := SearchRows(table, nq, limit, IndexFailed, EmotionalFields);
    var k :| 0 <= k < |rows| && rows[k] == row;
    assert Map(rows, RowToEmotionalScenario)[k] == RowToEmotionalScenario(row);
  }
}
