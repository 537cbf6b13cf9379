# 伴生 (yqsh) — a verified model of the assistant's knowledge pipeline and calculators

This project models the core of the pregnancy companion app in Dafny and proves properties of it. The app is written for expectant fathers.

The core's centre is the knowledge-base retrieval pipeline that backs the chat assistant:

- the keyword and pattern **intent classifier**;
- the **FTS query sanitiser** and the index-then-`LIKE` **search fallback**;
- the tiered **symptom decision evaluator**;
- the **seeder and version gate** of the knowledge database;
- the **prompt assembler** that turns the pregnancy context and the facts it found into the system prompt.

Around it sit the pure domain calculators and small state machines:

- pregnancy week, day and trimester arithmetic and the due-date checks;
- the dad XP level table;
- the contraction 5-1-1 rule and the duration label;
- the timeline week-anchor store and the chat message store;
- the hospital-bag and achievement aggregations;
- the static 40-week table and the milestone templates;
- the user-database queries that keep invariants: a single active AI configuration, achievement completion, level recomputation, partial updates and one weight record per date.

Everything is immutable datatypes and pure functions. Two methods stand out: the 5-1-1 checks, which are loops with invariants.

The rest of the modelling choices:

- **Databases.** A table is a sequence of rows in rowid order. A database session is an `Option` of a store, and `None` stands for "no handle".
- **Zustand stores.** Each store is a state record, and every action is a transition function on it.
- **The outside world.** The clock, the date parser, the platform's refusal to open a file and the full-text index are parameters. So are the storage faults of the initialiser: a throw from any of its steps, the two reads included. The index is an oracle that either fails or names rows.

Modules, one per source file or component:

| module | models |
|---|---|
| `Intent` | app/src/services/kb/intentDetector.ts |
| `KbTypes`, `KnowledgeDb` | app/src/services/kb/knowledgeDb.ts (rows, ids, seeding, version, stats) |
| `KbService`, `SymptomPath` | app/src/services/kb/kbService.ts |
| `KbInit` | app/src/services/kb/kbInit.ts |
| `Prompt` | app/src/services/ai/context.ts |
| `Pregnancy` | app/src/lib/pregnancy.ts |
| `PregnancyStore` | app/src/state/pregnancyStore.ts |
| `Levels`, `DadStore` | app/src/state/dadStore.ts and the level loops of queries.ts |
| `ProfileDb`, `AiConfigDb`, `RecordsDb`, `GrowthDb` | app/src/services/db/queries.ts |
| `Timeline` | app/src/state/timelineStore.ts |
| `ChatStore` | app/src/state/chatStore.ts |
| `Contraction` | the helpers of app/src/screens/ContractionTimerScreen.tsx |
| `HospitalBag` | the list logic of app/src/screens/HospitalBagScreen.tsx |
| `AchievementsScreen` | the aggregation of app/src/screens/AchievementsScreen.tsx |
| `WeeklyData` | app/src/data/weeklyData.ts |
| `MilestoneTemplates` | app/src/knowledge/milestoneTemplates.ts |
| `Js`, `Sql`, `Seqs`, `Grouping`, `Wrappers`, `UserTypes` | shared helpers |

The shared helpers have these jobs:

- `Js` holds JavaScript's semantics: the truncating `%`, `Math.floor`, `trim`, `toLowerCase` on ASCII, `includes`, `padStart`.
- `Sql` holds SQLite's: `LIKE`, `LIMIT`, `INSERT OR REPLACE`, the BINARY collation.
- `Grouping` is the group-by-key-then-list-in-fixed-order shape that two screens share.

Behaviour of the code worth knowing:

- **An empty or blank search query returns rows.** It skips the index, and the fallback pattern `'%%'` matches every row with a non-NULL searched column. The result is up to `limit` rows, not zero.
- **A food record with an invalid `safety_level` aborts the whole food seed.** The transaction rolls back, and records are never skipped one at a time.
- **An empty answer list makes the symptom evaluator return the last path,** not the MONITOR path.
- **A schema failure on the first open is never retried.** `openKnowledgeDatabase` stores the handle before creating the schema. When the schema step throws, the handle stays set, and every later call returns it without running the schema again.
- **Food keys are sanitised per UTF-16 code unit.** The pattern has no `u` flag, so a character above U+FFFF becomes two underscores. `草莓🍓` and `草莓__` share a key.
- **A throwing stats read fails initialisation after the version is stored.** `getKbStats` runs after `setKbVersion` inside the same `try`. When it throws, the run reports failure, but the next start finds `1.1.0` and skips seeding.
- **Week 13 is in two different trimesters.** The 40-week table files it under the second trimester, while `getTrimester` puts it in the first. Both are modelled as written.

## Model

| member | source | states |
|---|---|---|
| Intent.NormalizeEmpty | app/src/services/kb/intentDetector.ts:35-37 | normalising leaves nothing exactly when the message is all whitespace |
| Intent.Normalize | app/src/services/kb/intentDetector.ts:35-37 | the normalised message is no longer than the message, has no whitespace at either end, and is empty exactly when the message is all whitespace |
| Intent.MatchKeywords | app/src/services/kb/intentDetector.ts:39-47 | the result is exactly the list keywords occurring in the text, kept in list order, each once when the list has no repeats |
| Intent.NoneInEmpty | app/src/services/kb/intentDetector.ts:39-47 | empty text contains no non-empty keyword |
| Intent.MatchIffAny | app/src/services/kb/intentDetector.ts:39-47 | some keyword is reported exactly when some keyword occurs in the text |
| Intent.FindTail | app/src/services/kb/intentDetector.ts:21-28 | the scan for a pattern's tail succeeds exactly when the tail occurs at least the gap in, reached over characters that are not line terminators (the regex `.{0,n}` / `.*`) |
| Intent.MatchesFromSound | app/src/services/kb/intentDetector.ts:21-28 | a match from a given head position is exactly a regex match whose head starts there |
| Intent.ReachableToMatch | app/src/services/kb/intentDetector.ts:21-28 | a head occurrence followed by a reachable tail is a regex match |
| Intent.MatchToReachable | app/src/services/kb/intentDetector.ts:21-28 | conversely every regex match has its tail reachable after the head |
| Intent.PatternTestFrom | app/src/services/kb/intentDetector.ts:49-56 | scanning from position i succeeds exactly when some regex match starts at or after i |
| Intent.PatternTest | app/src/services/kb/intentDetector.ts:49-56 | `regex.test(text)` for one food pattern holds exactly when the pattern matches somewhere |
| Intent.PatternLabels | app/src/services/kb/intentDetector.ts:49-56 | a label is reported exactly when some pattern with that label matches the text |
| Intent.NoPatternInEmpty | app/src/services/kb/intentDetector.ts:21-28 | no pattern with a non-empty head matches empty text |
| Intent.DetectFoodPatterns | app/src/services/kb/intentDetector.ts:49-56 | absent exactly when neither a food keyword nor a pattern matches; otherwise the de-duplicated union of both, non-empty, confidence high exactly when it has more than one element and never low |
| Intent.FoodPatternsInFirstOrder | app/src/services/kb/intentDetector.ts:50-52 | the reported keywords appear in the order of their first occurrence among the matching keywords followed by the matching labels, as a `Set` keeps them |
| Seqs.DedupOrder | app/src/services/kb/intentDetector.ts:52 | `Array.from(new Set(xs))` keeps the elements in the order of their first occurrence in `xs` |
| Intent.DetectKbIntent | app/src/services/kb/intentDetector.ts:58-97 | a blank message gives no intent, no keywords and low confidence; a found intent always has keywords and confidence above low; no intent always has none and low |
| Intent.Classify | app/src/services/kb/intentDetector.ts:64-97 | the priority cascade on the normalised text has the same result shape as `detectKbIntent` |
| Intent.ClassifyLower | app/src/services/kb/intentDetector.ts:80-96 | the tiers below symptom never answer emergency or symptom; a found intent has keywords and confidence above low, no intent has none and low |
| Intent.LowerTiers | app/src/services/kb/intentDetector.ts:80-96 | food exactly when the food detector finds something, passing its result on; else emotional exactly when an emotional keyword occurs; else no intent |
| Intent.FallThrough | app/src/services/kb/intentDetector.ts:64-80 | non-empty text with neither an emergency nor a symptom keyword reaches the food tier |
| Intent.EmptyMatchesNothing | app/src/services/kb/intentDetector.ts:59-62 | empty text matches no keyword list and no food pattern, so the blank-input guard agrees with the cascade |
| Intent.EmergencyOverrides | app/src/services/kb/intentDetector.ts:64-68 | emergency is chosen exactly when an emergency keyword occurs, whatever else matches, reporting the emergency keywords with high confidence |
| Intent.SymptomSecond | app/src/services/kb/intentDetector.ts:70-78 | symptom is chosen exactly when no emergency keyword and some symptom keyword occur; high confidence exactly for more than one symptom keyword |
| Intent.FoodThird | app/src/services/kb/intentDetector.ts:80-84 | food is chosen exactly when neither higher tier matches and the food detector finds something, passing its keywords and confidence on |
| Intent.EmotionalLast | app/src/services/kb/intentDetector.ts:86-96 | emotional is chosen exactly when no higher tier matches and an emotional keyword occurs; no intent exactly when nothing matches |
| Intent.EmergencyBeatsFood | app/src/services/kb/intentDetector.ts:9-12 | "破水后还能吃螃蟹吗" (waters broken, may she eat crab) is classified as an emergency |
| KbTypes.ParseSafetyLevel | app/src/services/kb/knowledgeDb.ts:29 | the `safety_level` CHECK accepts exactly SAFE, CAUTION and AVOID, and the accepted text names the level |
| KbTypes.SafetyLevelRoundTrip | app/src/services/kb/knowledgeDb.ts:29 | every level's name parses back to that level |
| KnowledgeDb.OpenKnowledgeDatabase | app/src/services/kb/knowledgeDb.ts:5-10 | an existing handle is returned unchanged and the call succeeds; on a first open a refused file leaves no handle and fails, a schema failure fails but leaves the handle set, and only a clean open succeeds |
| KnowledgeDb.OpenIdempotent | app/src/services/kb/knowledgeDb.ts:5-10 | once an open succeeded, opening again returns the same handle and session whatever the disk or the platform does |
| KnowledgeDb.SchemaFailureIsNotRetried | app/src/services/kb/knowledgeDb.ts:5-10 | after a schema failure the next open succeeds with the same file and never creates the schema again |
| KnowledgeDb.GetKbVersion | app/src/services/kb/knowledgeDb.ts:130-137 | null without a handle; otherwise present exactly when the meta table has a `version` row |
| KnowledgeDb.SetKbVersion | app/src/services/kb/knowledgeDb.ts:139-147 | without a handle nothing happens; otherwise only the meta table changes, gaining or keeping the single `version` key, every other key unchanged |
| KnowledgeDb.VersionRoundTrip | app/src/services/kb/knowledgeDb.ts:130-147 | after setting v, reading gives v; a second set overrides the first; without a handle reading stays null |
| KnowledgeDb.IdSafe | app/src/services/kb/knowledgeDb.ts:201 | the sanitised name has one character per UTF-16 code unit of the name, all safe or `_`; for a name without characters above U+FFFF it keeps ASCII letters, digits and U+4E00..U+9FA5 in place and turns every other character into `_` |
| KnowledgeDb.FoodId | app/src/services/kb/knowledgeDb.ts:201 | the food key is `food_` followed by one safe character or `_` per UTF-16 code unit of the name, and for a name without characters above U+FFFF every safe character is kept in place |
| KnowledgeDb.IdSafeIdempotent | app/src/services/kb/knowledgeDb.ts:201 | sanitising twice is sanitising once, and leaves a name alone exactly when it holds only safe characters and `_` |
| KnowledgeDb.FoodIdCollision | app/src/services/kb/knowledgeDb.ts:201-207 | names differing only in unsafe characters of the same UTF-16 width at the same places get the same key, so one replaces the other |
| KnowledgeDb.AstralNameSanitised | app/src/services/kb/knowledgeDb.ts:201 | a character above U+FFFF is a surrogate pair and becomes two underscores: `草莓🍓` sanitises to `草莓__` |
| KnowledgeDb.AstralNameCollides | app/src/services/kb/knowledgeDb.ts:201-207 | `草莓🍓` and `草莓__` get the same food key, so one record replaces the other |
| KnowledgeDb.FoodToRow | app/src/services/kb/knowledgeDb.ts:201-207 | a record becomes a row exactly when its safety level passes the CHECK; the row carries the derived id and search text |
| KnowledgeDb.SearchTextCoversFields | app/src/services/kb/knowledgeDb.ts:202-298 | each derived search text contains the fields it is built from: food name and reason, symptom names, the wife-feeling text when given, every emergency recognition sign |
| KnowledgeDb.JoinContains | app/src/services/kb/knowledgeDb.ts:298 | a space-joined list contains each of its parts |
| KnowledgeDb.MapFoodRows | app/src/services/kb/knowledgeDb.ts:200-208 | the food rows are produced exactly when no record fails the CHECK, one row per record in order |
| KnowledgeDb.ReplaceTable | app/src/services/kb/knowledgeDb.ts:199-208 | deleting everything and upserting the rows leaves unique keys, exactly the records' keys, one row per distinct key, and that row is the one built from the last record with the key |
| KnowledgeDb.LastRowsStored | app/src/services/kb/knowledgeDb.ts:200-207 | the row of the last record of each key is in the table |
| KnowledgeDb.StoredRowsAreLast | app/src/services/kb/knowledgeDb.ts:200-207 | every stored row is the row of the last record with its key |
| KnowledgeDb.LastOfKeyExists | app/src/services/kb/knowledgeDb.ts:200-207 | every record has a last record with the same key at or after it |
| KnowledgeDb.KeysAlong | app/src/services/kb/knowledgeDb.ts:201-207 | rows derived one per record carry the same key set as the records |
| KnowledgeDb.SeedFoodData | app/src/services/kb/knowledgeDb.ts:192-217 | without a handle: 0 and no write; with one, success exactly when there is no fault and every level is valid, returning the record count, changing only the food table, which then holds exactly the rows of the last record of each key; on failure the session is unchanged |
| KnowledgeDb.SeedFoodForgetsPrior | app/src/services/kb/knowledgeDb.ts:199 | a successful food seed leaves the same table whatever was there before |
| KnowledgeDb.SeedFoodLastRecordWins | app/src/services/kb/knowledgeDb.ts:203-207 | the stored row for a key is built from the last record with that key |
| KnowledgeDb.DuplicateFoodNamesCollapse | app/src/services/kb/knowledgeDb.ts:201-216 | two records with one name report a count of 2 but leave 1 row |
| KnowledgeDb.SeedSymptomData | app/src/services/kb/knowledgeDb.ts:219-251 | the same transactional replace keyed by record id: 0 without a handle, the record count on success, only the symptom table changed and holding exactly the rows of the last record of each id, nothing changed on failure |
| KnowledgeDb.SeedEmotionalData | app/src/services/kb/knowledgeDb.ts:253-287 | the same for the emotional table: on success it holds exactly the rows of the last scenario of each id |
| KnowledgeDb.SeedEmergencyData | app/src/services/kb/knowledgeDb.ts:289-324 | the same for the emergency table: on success it holds exactly the rows of the last procedure of each id |
| KnowledgeDb.GetKbStats | app/src/services/kb/knowledgeDb.ts:326-343 | zeros without a handle; otherwise the row count of each content table |
| KbService.SeedReadBack | app/src/services/kb/kbService.ts:61-96 | reading back a seeded record gives its own fields, absent optional text as `''` and absent optional lists as empty |
| KbService.BlankSpecials | app/src/services/kb/kbService.ts:7 | each FTS operator character becomes a space and every other character stays |
| KbService.CollapseBlanks | app/src/services/kb/kbService.ts:7 | whitespace runs shrink to one space: no two blanks in a row, no new characters, blank exactly when the input is |
| KbService.BlankEnds | app/src/services/kb/kbService.ts:5 | trimming does not change whether a text holds only blanks and operator characters |
| KbService.EscapeEmptyIff | app/src/services/kb/kbService.ts:4-10 | the sanitised query is `''` exactly when the input holds only whitespace and `" - * ( ) ^ ~ :` |
| KbService.EscapeFtsQuery | app/src/services/kb/kbService.ts:4-10 | a non-empty result is at least three characters wrapped in double quotes, and only a non-blank query can give one |
| KbService.EscapeShape | app/src/services/kb/kbService.ts:7-9 | a non-empty sanitised query is one double-quoted phrase without operator characters, without blanks at its ends and without blank runs |
| KbService.CollapsedHasNoSpecial | app/src/services/kb/kbService.ts:7 | after blanking and collapsing no operator character is left |
| KbService.TrimKeepsShape | app/src/services/kb/kbService.ts:7 | the final trim keeps the no-operator and no-blank-run properties |
| KbService.Joined | app/src/services/kb/kbService.ts:109-110 | the index join returns only table rows, at most one per index hit |
| KbService.IndexRows | app/src/services/kb/kbService.ts:105-125 | index rows are used only when the sanitised query is non-blank and the index answers with at least one row |
| KbService.SearchRows | app/src/services/kb/kbService.ts:105-137 | a list search returns at most `limit` rows, all drawn from the table |
| KbService.LikeRowsSound | app/src/services/kb/kbService.ts:127-131 | every fallback row matches `%query%` on one of the searched columns |
| KbService.LikeRowsComplete | app/src/services/kb/kbService.ts:127-131 | when the limit does not bite, every matching row is returned |
| KbService.Matching | app/src/services/kb/kbService.ts:127-131 | before `LIMIT`, the fallback keeps exactly the rows with a matching searched column, in table order |
| KbService.FoundByColumn | app/src/services/kb/kbService.ts:122-131 | with the index failing and the limit not biting, a row one of whose searched columns contains a wildcard-free query is returned |
| KbService.FallbackIsSubstring | app/src/services/kb/kbService.ts:127-131 | for a query without `%` and `_` a row matches exactly when a non-NULL searched column contains it, ignoring ASCII case |
| KbService.BlankQueryTakesFirstRows | app/src/services/kb/kbService.ts:102-131 | a blank query skips the index and returns the table's first `limit` rows, not none |
| KbService.IndexOrFallback | app/src/services/kb/kbService.ts:105-137 | a throwing index, an operator-only query, or index hits that join to no row fall back to `LIKE`; a non-blank query whose hits join to rows returns those rows |
| Seqs.Map | app/src/services/kb/kbService.ts:115 | converting rows converts each one, in order |
| KbService.ConvertedFromTable | app/src/services/kb/kbService.ts:115-133 | items converted from table rows are among the converted table |
| KbService.SearchList | app/src/services/kb/kbService.ts:98-138 | the result envelope: no handle gives the raw query and no items; otherwise the trimmed lower-cased query, at most `limit` items, `totalMatches` equal to the item count, and the items are the searched rows converted in order |
| KbService.NormalizeQuery | app/src/services/kb/kbService.ts:102 | the normalised query is no longer than the query, has no whitespace at either end, and is empty exactly when the lower-cased query is blank |
| KbService.SearchFood | app/src/services/kb/kbService.ts:98-138 | the envelope over the food table; the items are the food rows the index or the `name`/`name_en`/`category` fallback returns, converted in order |
| KbService.FoodFound | app/src/services/kb/kbService.ts:122-131 | with the index failing and the limit not biting, a food whose name, English name or category contains the query is among the items |
| KbService.SearchSymptom | app/src/services/kb/kbService.ts:164-204 | the envelope over the symptom table; the items are the rows the index or the `symptom_name`/`symptom_name_en`/`search_text` fallback returns, converted in order |
| KbService.SymptomFound | app/src/services/kb/kbService.ts:188-197 | with the index failing and the limit not biting, a symptom whose name, English name or search text contains the query is among the items |
| KbService.SearchEmotional | app/src/services/kb/kbService.ts:282-322 | the envelope over the emotional table; the items are the rows the index or the `scenario_name`/`trigger`/`wife_feeling` fallback returns, converted in order |
| KbService.EmotionalFound | app/src/services/kb/kbService.ts:306-315 | with the index failing and the limit not biting, a scenario whose name, trigger or feeling contains the query is among the items |
| KbService.SearchEmergency | app/src/services/kb/kbService.ts:362-394 | null without a handle; otherwise a procedure from the table, null exactly when neither the index nor the `emergency_name`/`search_text` fallback yields a row, and otherwise the first such row converted |
| KbService.EmergencyFoundBySign | app/src/services/kb/kbService.ts:387-393 | a stored emergency whose recognition sign mentions the query is found when the index gives nothing |
| KbService.SignInSearchText | app/src/services/kb/knowledgeDb.ts:298 | each recognition sign is part of the emergency's search text |
| SymptomPath.YesCount | app/src/services/kb/kbService.ts:230 | the number of `true` answers, positive exactly when some answer is `true` |
| SymptomPath.CallDoctorIsAnyYes | app/src/services/kb/kbService.ts:256-263 | a CALL_DOCTOR path fires exactly when some answer is yes: the `不足37周` test is subsumed |
| SymptomPath.FirstWhere | app/src/services/kb/kbService.ts:266-273 | the first index satisfying a test, or none when no element does (`Array.prototype.find`) |
| SymptomPath.EvaluateSymptomPath | app/src/services/kb/kbService.ts:218-280 | no paths give (null, NORMAL, 观察情况); otherwise the chosen path is one of the tree's, and the urgency and suggestion are its own |
| SymptomPath.TwoYesPicksFirstEmergency | app/src/services/kb/kbService.ts:233-251 | with two or more yes answers the first EMERGENCY path in list order wins |
| SymptomPath.AnyYesPicksFirstCallDoctor | app/src/services/kb/kbService.ts:254-264 | with some yes answer and no EMERGENCY path firing, the first CALL_DOCTOR path wins |
| SymptomPath.AllNoDefaults | app/src/services/kb/kbService.ts:266-279 | a non-empty all-no list picks the first MONITOR path, else the first NORMAL path, else the last path |
| SymptomPath.NoAnswersPicksLast | app/src/services/kb/kbService.ts:266-279 | an empty answer list returns the last path even when a MONITOR path exists |
| SymptomPath.SingleYesNeedsKeyword | app/src/services/kb/kbService.ts:237-250 | with exactly one yes, an EMERGENCY path fires only through one of its condition keywords; reading past the answers fires nothing |
| KbInit.Reseed | app/src/services/kb/kbInit.ts:72-101 | success reports KB_VERSION and the live table counts; failure reports version `''` and zero stats; a failure before the stats read leaves the meta table as it was, and a failure at the stats read leaves it with exactly the version row written; the session stays open |
| KbInit.InitializeKnowledgeBase | app/src/services/kb/kbInit.ts:62-103 | success reports `1.1.0` and the counts of the tables as left; a throw from any step, the version and stats reads included, reports `''` and zeros |
| KbInit.Opened | app/src/services/kb/kbInit.ts:68 | after the open step there is a handle, the existing one when there was one |
| KbInit.CurrentVersionSkipsSeeding | app/src/services/kb/kbInit.ts:70-94 | at the current version nothing is written; the run succeeds with the stats of the tables as they are, unless the version read or the stats read throws, and then it fails with zeros |
| KbInit.ReseedSuccessIff | app/src/services/kb/kbInit.ts:75-94 | the reseed succeeds exactly when every food level is valid and none of the four seeds, the version write or the stats read faults |
| KbInit.SuccessIff | app/src/services/kb/kbInit.ts:62-103 | initialisation succeeds exactly when the database opens, neither the version read nor the stats read throws, and either the version is current or every seed and the version write go through |
| KbInit.ReseedContents | app/src/services/kb/kbInit.ts:75-94 | a clean reseed stores the version; each table holds exactly the rows of the bundle's last record of each key; the reported stats are distinct-key counts rather than record counts |
| KbInit.FailureLeavesVersion | app/src/services/kb/kbInit.ts:87-101 | a reseed failing before the stats read leaves the stored version as it was, so the next start tries again; any failed reseed leaves either the old version or `1.1.0` |
| KbInit.StatsFaultAfterVersionWrite | app/src/services/kb/kbInit.ts:87-100 | when every write goes through and only the stats read throws, the reseed fails with `1.1.0` already stored |
| KbInit.StatsFaultSkipsNextReseed | app/src/services/kb/kbInit.ts:67-101 | after such a failure, the next initialisation writes nothing whatever bundle it brings: it succeeds unless one of its reads throws |
| KbInit.SchemaFailureKeepsHandle | app/src/services/kb/kbInit.ts:62-103 | a schema failure on the first open fails initialisation but keeps the handle, so the next run no longer depends on the disk or the open fault |
| KbInit.EarlierSeedsStayCommitted | app/src/services/kb/kbInit.ts:75-85 | when the symptom seed throws, the food seed stays committed and the later tables are untouched |
| KbInit.ReseedWritesVersion | app/src/services/kb/kbInit.ts:87 | a successful reseed has written KB_VERSION |
| KbInit.SuccessMeansCurrent | app/src/services/kb/kbInit.ts:62-94 | a successful initialisation leaves the database open at `1.1.0` |
| KbInit.SecondRunIsNoOp | app/src/services/kb/kbInit.ts:70-94 | after one success a second run writes nothing, whatever the bundle, the disk or the open, seed and write faults; it succeeds unless its version read or stats read throws |
| Prompt.Bullets | app/src/services/ai/context.ts:18 | one `- ` line per warning sign, in order |
| Prompt.WarningSection | app/src/services/ai/context.ts:16-19 | the warning block is empty exactly when there are no signs, and otherwise starts with its header |
| Prompt.WarningSectionOnlyWhenSigns | app/src/services/ai/context.ts:12-43 | an absent and an empty sign list give the same prompt; a block appears exactly when there are signs |
| Prompt.BuildSystemPrompt | app/src/services/ai/context.ts:12-43 | the prompt opens with the persona text followed by the current week, and ends with the reply principles |
| Prompt.BuildContextSummary | app/src/services/ai/context.ts:45-48 | the summary is the week-and-day display, ` • `, then the week's size comparison |
| Prompt.InjectContext | app/src/services/ai/context.ts:50-58 | the injected pair is the system prompt and the summary of the context |
| Prompt.InjectIgnoresMessage | app/src/services/ai/context.ts:50-58 | the user message has no influence on what is injected |
| Prompt.Segment | app/src/services/ai/context.ts:63-79 | an optional segment is empty for empty text and otherwise ends with the text |
| Prompt.FormatFood | app/src/services/ai/context.ts:60-66 | the food line starts with name and level, gains the reason only when it is non-empty and ends with the dad tip when that is non-empty |
| Prompt.SymptomShowsFirstQuestionAndTwoPaths | app/src/services/ai/context.ts:68-75 | the symptom line depends only on the first question and the first two decision paths |
| Prompt.FormatEmotional | app/src/services/ai/context.ts:77-81 | the follow-up segment is appended exactly when it is non-empty |
| Prompt.EmergencyShowsThreeSignsFourActions | app/src/services/ai/context.ts:83-87 | the emergency line depends only on the first three signs and the first four actions |
| Prompt.FoodLines | app/src/services/ai/context.ts:106 | one formatted line per food, in order |
| Prompt.SymptomLines | app/src/services/ai/context.ts:109 | one formatted line per symptom tree, in order |
| Prompt.EmotionalLines | app/src/services/ai/context.ts:112 | one formatted line per scenario, in order |
| Prompt.BuildKbAugmentedPrompt | app/src/services/ai/context.ts:89-98 | without reference data the prompt is exactly the system prompt |
| Prompt.AugmentedExtendsBase | app/src/services/ai/context.ts:115-125 | with reference data the system prompt is a strict prefix, followed by the reference header, and the usage directive closes the prompt |
| Prompt.FourParts | app/src/services/ai/context.ts:115-125 | the prefix and suffix facts about the four concatenated parts of the augmented prompt |
| Prompt.SectionsOrderAndCaps | app/src/services/ai/context.ts:100-113 | reference lines run emergency, foods, symptoms, emotional, capped at 1, 5, 3, 3, and their number is the sum of the capped sizes |
| Prompt.HasKbIffLines | app/src/services/ai/context.ts:92-98 | there is reference data exactly when there is at least one reference line |
| Pregnancy.GetTrimester | app/src/lib/pregnancy.ts:41-45 | trimester 1 exactly up to week 13, 3 exactly after week 27 |
| Pregnancy.TrimesterNamesDistinct | app/src/lib/pregnancy.ts:47-54 | each trimester has its own display name |
| Pregnancy.TrimesterMonotone | app/src/lib/pregnancy.ts:41-45 | a later week never has an earlier trimester |
| Pregnancy.GetBabySizeComparison | app/src/lib/pregnancy.ts:99-102 | every integer week has an entry: weeks 1..40 their own, earlier weeks week 1's, later weeks week 40's |
| Pregnancy.CalculatePregnancyProgress | app/src/lib/pregnancy.ts:17-39 | week in 1..40, day in 1..7, trimester of the clamped week, elapsed and remaining days shown as at least 0, and the gestational-day range of the clamped week |
| Pregnancy.WeekAndDayRecompose | app/src/lib/pregnancy.ts:20-23 | inside the 280-day window the week and day recompose the elapsed days exactly |
| Pregnancy.OutsideWindow | app/src/lib/pregnancy.ts:22-32 | a due date more than 280 days away reads week 1 day 1; one today or past reads week 40 |
| Pregnancy.WeekMonotone | app/src/lib/pregnancy.ts:20-24 | as the due date approaches the week never goes back |
| Pregnancy.CalculateDueDateFromLastPeriod | app/src/lib/pregnancy.ts:108-110 | the due date is exactly 280 days after the last period |
| Pregnancy.FormatWeekDisplayInjective | app/src/lib/pregnancy.ts:104-106 | the week display reads back: two displays are equal only for the same week and day |
| Pregnancy.DueDateFromRecentPeriod | app/src/lib/pregnancy.ts:108-118 | a due date derived from a last period is valid exactly when that period began within the past 294 days, today excluded |
| Pregnancy.ValidDueDateElapsed | app/src/lib/pregnancy.ts:112-118 | a due date passes `isValidDueDate` exactly when the elapsed days lie strictly between 0 and 294 |
| PregnancyStore.CalculateCurrentWeek | app/src/state/pregnancyStore.ts:45-74 | no profile, no due date or an unparseable one leaves the state as it is; otherwise week in 1..40, day in 1..7, days to due at least 0, profile and week data untouched |
| PregnancyStore.StoreAgreesWithProgress | app/src/state/pregnancyStore.ts:52-73 | the store's week, day, trimester and remaining days are those `calculatePregnancyProgress` gives for the same whole-day difference to the due date |
| PregnancyStore.StoreTrimesterClamped | app/src/state/pregnancyStore.ts:60-66 | the store's trimester rule on the unclamped week equals `getTrimester` of the clamped week |
| PregnancyStore.SetProfile | app/src/state/pregnancyStore.ts:30-33 | the profile is stored and the week data kept |
| PregnancyStore.UpdateDueDate | app/src/state/pregnancyStore.ts:35-44 | no profile: no change; otherwise only the due date and update time of the profile change |
| PregnancyStore.UpdateIsSetProfile | app/src/state/pregnancyStore.ts:35-44 | updating the due date is setting the profile with the new date, recalculation included |
| PregnancyStore.SetWeekData | app/src/state/pregnancyStore.ts:76 | only the week data changes |
| PregnancyStore.Clear | app/src/state/pregnancyStore.ts:78-86 | afterwards there is no profile and no week data |
| PregnancyStore.ClearIsQuiescent | app/src/state/pregnancyStore.ts:78-86 | clearing gives the initial values from any state, after which recalculating and clearing again change nothing |
| WeeklyData.TableShape | app/src/data/weeklyData.ts:32-553 | the table has 40 entries, weeks 1..40 in order, trimester 1 to week 12, 2 to week 27, 3 after |
| WeeklyData.Week13Disagrees | app/src/data/weeklyData.ts:184-185 | week 13 is second trimester in the table but first for `getTrimester`; every other week agrees |
| WeeklyData.FindWeek | app/src/data/weeklyData.ts:555-557 | the found entry is in the list with the week asked for; none exactly when no entry has it |
| WeeklyData.GetWeekData | app/src/data/weeklyData.ts:555-557 | a returned entry is the table's entry for that week |
| WeeklyData.GetWeekDataTotal | app/src/data/weeklyData.ts:555-557 | weeks 1..40 have their entry and no other number has one |
| WeeklyData.FilterTrimester | app/src/data/weeklyData.ts:559-561 | the filter keeps only entries of the trimester |
| WeeklyData.FilterAppend | app/src/data/weeklyData.ts:559-561 | filtering distributes over concatenation, so order is preserved |
| WeeklyData.FilterAllOrNone | app/src/data/weeklyData.ts:559-561 | a run entirely of the trimester is kept whole, a run without it vanishes |
| WeeklyData.GetWeeksByTrimester | app/src/data/weeklyData.ts:559-561 | every returned entry is a table entry of the trimester |
| WeeklyData.Runs | app/src/data/weeklyData.ts:32-553 | the table is the three single-trimester runs, weeks 1-12, 13-27, 28-40 |
| WeeklyData.RunsPartition | app/src/data/weeklyData.ts:559-561 | filtering three single-trimester runs picks out each run |
| WeeklyData.FirstTrimesterRun | app/src/data/weeklyData.ts:559-561 | trimester 1 is weeks 1-12 |
| WeeklyData.SecondTrimesterRun | app/src/data/weeklyData.ts:559-561 | trimester 2 is weeks 13-27 |
| WeeklyData.ThirdTrimesterRun | app/src/data/weeklyData.ts:559-561 | trimester 3 is weeks 28-40 |
| WeeklyData.TrimestersPartition | app/src/data/weeklyData.ts:559-561 | the three trimester lists concatenate back to the whole table |
| Levels.ScanDown | app/src/state/dadStore.ts:26-35 | the descending scan answers an index at or below its start |
| Levels.ScanDownGreatest | app/src/state/dadStore.ts:26-35 | it answers the greatest reached threshold's index, or none when no threshold is reached |
| Levels.CalculateLevelSpec | app/src/state/dadStore.ts:17-37 | level 1..5 with its title; the threshold of the level is reached and the next is not; next is the following threshold or 99999 at level 5; negative XP reads (1, 预备队员, 100) |
| Levels.CalculateLevel | app/src/state/dadStore.ts:25-37 | the level is one of the table's, the title is that level's, and the next threshold is the following level's, or 99999 at the top |
| Levels.LevelMonotone | app/src/state/dadStore.ts:25-37 | more XP never gives a lower level |
| Levels.NextIsAhead | app/src/state/dadStore.ts:25-37 | below 1000 XP the next threshold is still ahead |
| Levels.StoredLevelFromAgrees | app/src/services/db/queries.ts:782-790 | the database's level loop computes what the store's scan does |
| Levels.StoredLevelAgrees | app/src/services/db/queries.ts:782-790 | the level stored after an XP event equals the store's `calculateLevel` level |
| DadStore.InitialConsistent | app/src/state/dadStore.ts:39-44 | the initial growth is the standing `calculateLevel` gives for 0 XP |
| DadStore.AddXP | app/src/state/dadStore.ts:53-61 | XP grows by the amount, the standing is recomputed from it, the badge shows the amount, achievements are untouched |
| DadStore.AddXPAdditive | app/src/state/dadStore.ts:53-61 | two gains leave the standing of one gain of their sum |
| DadStore.AddXPNeverDemotes | app/src/state/dadStore.ts:53-61 | a non-negative gain never lowers the level |
| DadStore.UnlockAchievement | app/src/state/dadStore.ts:70-77 | entries with the id become completed at the unlock time; others, the list length and the growth stay |
| DadStore.UnlockIdempotent | app/src/state/dadStore.ts:70-77 | unlocking twice at one time is unlocking once |
| ProfileDb.ParseUnit | app/src/services/db/queries.ts:25-26 | only the exact text `imperial` reads as imperial |
| ProfileDb.ParseFrequency | app/src/services/db/queries.ts:27-30 | each of the three texts reads as itself; anything else reads as daily |
| ProfileDb.GetProfile | app/src/services/db/queries.ts:18-45 | a profile exactly when a row exists, with its due date and partner, a non-empty locale (the stored one when non-empty) and notifications on exactly when the flag is 1 |
| ProfileDb.SaveProfile | app/src/services/db/queries.ts:47-86 | the due date and partner are always overwritten and the update time refreshed; an existing row keeps its creation time and locale |
| ProfileDb.SaveThenGet | app/src/services/db/queries.ts:55-84 | reading after a save gives each given preference, and each omitted one as before (COALESCE), or metric/on/daily for a new row |
| ProfileDb.ResaveIsStable | app/src/services/db/queries.ts:18-86 | saving the profile as read, all preferences given, reads back the same apart from the update time |
| AiConfigDb.AddAiConfig | app/src/services/db/queries.ts:119-130 | one row appended with a fresh id above all others, active exactly when the table was empty, provider `custom`, a non-empty name |
| AiConfigDb.AddKeepsOneActive | app/src/services/db/queries.ts:122-123 | adding keeps exactly one configuration active |
| Sql.FindKey | app/src/services/db/queries.ts:153-159 | the first row carrying the key, or none exactly when no row carries it (shared by the `ai_config`, `achievements` and `user_achievements` lookups) |
| AiConfigDb.SetActiveAiConfig | app/src/services/db/queries.ts:147-165 | an unknown id rolls back and throws; otherwise exactly the rows with the id are active and stamped, everything else as it was |
| AiConfigDb.SetActiveLeavesOneActive | app/src/services/db/queries.ts:150-160 | after a successful switch exactly the chosen row is active |
| AiConfigDb.LaterTrans | app/src/services/db/queries.ts:175 | `ORDER BY updated_at DESC, id DESC` is transitive |
| AiConfigDb.LaterIrreflexive | app/src/services/db/queries.ts:175 | and irreflexive |
| AiConfigDb.Latest | app/src/services/db/queries.ts:175 | `LIMIT 1` picks a row of the table |
| AiConfigDb.LatestIsFirst | app/src/services/db/queries.ts:175 | no row sorts ahead of the picked one |
| AiConfigDb.RemoveId | app/src/services/db/queries.ts:173 | the delete keeps exactly the rows without the id |
| AiConfigDb.RemoveIdIncreasing | app/src/services/db/queries.ts:173 | the delete keeps the ids increasing in table order |
| AiConfigDb.DeleteAiConfig | app/src/services/db/queries.ts:167-185 | no row with the id is left and the id counter is kept |
| AiConfigDb.DeleteActiveHandsOver | app/src/services/db/queries.ts:172-179 | deleting the active row hands activity to the remaining row sorting first by latest update then highest id, keeping one active |
| AiConfigDb.DeleteInactiveKeepsActive | app/src/services/db/queries.ts:172-179 | deleting an inactive or unknown id keeps the active row active |
| AiConfigDb.RemoveIdCount | app/src/services/db/queries.ts:173 | with unique ids a delete drops at most one row |
| RecordsDb.FindDate | app/src/services/db/queries.ts:233-237 | the row holding the date, or none when no row does |
| RecordsDb.AddWeightRecord | app/src/services/db/queries.ts:229-239 | weights outside (0, 300] are ignored; otherwise the date ends up with that weight, at most one row is added, other dates are untouched, and dates stay unique |
| RecordsDb.SecondRecordReplaces | app/src/services/db/queries.ts:233-237 | recording a date again replaces its weight without adding a row |
| RecordsDb.UpdateMemory | app/src/services/db/queries.ts:551-593 | on the memory with the id each given field (title, note, photo, kind, week, day, shared) takes its value and every other field, id and creation time stay; other rows untouched; an empty patch writes nothing |
| RecordsDb.MemoryUpdatesCompose | app/src/services/db/queries.ts:551-593 | two updates are one update with the later given fields winning |
| RecordsDb.UpdateMilestone | app/src/services/db/queries.ts:661-699 | on the milestone with the id each given field (title, description, date, week, photo, template) takes its value and every other field, id and creation time stay; other rows untouched; an empty patch writes nothing |
| RecordsDb.MilestoneUpdatesCompose | app/src/services/db/queries.ts:661-699 | two milestone updates compose the same way |
| GrowthDb.AddXpEvent | app/src/services/db/queries.ts:756-796 | XP grows by the delta from the existing or fresh row, the stored level is the level of the new XP, one event is appended with a fresh id which is returned |
| GrowthDb.GetDadGrowth | app/src/services/db/queries.ts:709-741 | growth exactly when the row exists, with its stored XP and level |
| GrowthDb.DbAgreesWithStore | app/src/services/db/queries.ts:775-792 | after an XP event the growth read back is what the store's `addXP` computes for the same gain |
| GrowthDb.XpEventsAdd | app/src/services/db/queries.ts:776-792 | two events leave the growth of one event with the summed delta |
| GrowthDb.InsertOrIgnore | app/src/services/db/queries.ts:832-836 | one insert keeps the stored rows, adds nothing but the definition, leaves its id present and keeps ids unique |
| GrowthDb.InitAchievements | app/src/services/db/queries.ts:828-838 | existing definitions stay as they are, every default id ends up present, new rows come from the defaults, ids stay unique |
| GrowthDb.InitAchievementsIdempotent | app/src/services/db/queries.ts:828-838 | seeding again adds nothing |
| Sql.FindKeyFirst | app/src/services/db/queries.ts:879-884 | the search answers exactly the first position carrying the id |
| GrowthDb.UpdateAchievementProgress | app/src/services/db/queries.ts:863-889 | an unknown id returns false and writes nothing; otherwise completed means progress reached the target, the row for the id stores the progress and flag, other rows are untouched and ids stay unique |
| GrowthDb.UnlockTimeOnTransition | app/src/services/db/queries.ts:884 | the unlock time of a stored row moves only on a 0→1 transition, and then to that call's time |
| GrowthDb.ProgressIdempotent | app/src/services/db/queries.ts:878-886 | reporting the same progress again changes nothing, at any later time |
| GrowthDb.FreshRowTakesDefaultTime | app/src/services/db/queries.ts:879-880 | a first report inserts a row whose unlock time is the column default, even below the target |
| Timeline.ClampWeek | app/src/state/timelineStore.ts:17 | weeks 1..40 pass through, others saturate at the nearer bound |
| Timeline.SetViewMode | app/src/state/timelineStore.ts:25-38 | the focus becomes the clamped target, else the mode's anchor, else the current focus; it is recorded as the mode's anchor and other anchors stay |
| Timeline.SetFocusedWeek | app/src/state/timelineStore.ts:40-50 | the clamped week becomes the focus and the current view's anchor; the view and other anchors stay |
| Timeline.SetExpandedWeek | app/src/state/timelineStore.ts:52 | the expanded week is stored unclamped and nothing else changes |
| Timeline.RememberViewAnchor | app/src/state/timelineStore.ts:54-60 | only the mode's anchor changes, to the clamped week |
| Timeline.ValidPreserved | app/src/state/timelineStore.ts:17-60 | every action keeps the focus and every anchor in 1..40 |
| Timeline.InitialValid | app/src/state/timelineStore.ts:19-23 | the initial state is valid |
| Timeline.SwitchBackRestoresFocus | app/src/state/timelineStore.ts:25-38 | switching to another view and back without a target restores the first view's focus |
| Timeline.SetViewModeIdempotent | app/src/state/timelineStore.ts:25-38 | entering the current, anchored view again changes nothing |
| ChatStore.AddMessage | app/src/state/chatStore.ts:27-36 | one message appended with a fresh, larger id and the time; earlier messages unchanged; ids keep increasing below the counter |
| ChatStore.SetMessages | app/src/state/chatStore.ts:38 | the list is replaced wholesale and the counter kept |
| ChatStore.SetLoading | app/src/state/chatStore.ts:40 | only the loading flag changes |
| ChatStore.SetAiConfig | app/src/state/chatStore.ts:42 | only the configuration changes |
| ChatStore.SetError | app/src/state/chatStore.ts:44 | only the error changes |
| ChatStore.ClearMessages | app/src/state/chatStore.ts:46 | the list is emptied and the counter kept |
| ChatStore.NoIdReuseAcrossClear | app/src/state/chatStore.ts:19-46 | a message added after a clear has an id above every id handed out before |
| ChatStore.ConsecutiveIds | app/src/state/chatStore.ts:30-35 | two messages added in a row get consecutive ids, in order |
| ChatStore.InitialIds | app/src/state/chatStore.ts:19-22 | the initial store satisfies the id invariant |
| Contraction.NatToStringValue | app/src/screens/ContractionTimerScreen.tsx:29 | the decimal rendering reads back as the number |
| Contraction.LeadingZeroValue | app/src/screens/ContractionTimerScreen.tsx:29 | a zero in front does not change the value |
| Contraction.PaddedValue | app/src/screens/ContractionTimerScreen.tsx:29 | padding keeps the value, gives digits only and at least two characters |
| Contraction.TwoDigits | app/src/screens/ContractionTimerScreen.tsx:29 | a number below 60 pads to exactly two digits |
| Contraction.SplitAtColon | app/src/screens/ContractionTimerScreen.tsx:29 | an `m:ss` label splits back into its parts at the third character from the end |
| Contraction.FormatDurationNat | app/src/screens/ContractionTimerScreen.tsx:26-30 | on non-negative durations JavaScript's floor and remainder are the plain quotient and remainder |
| Contraction.LabelShape | app/src/screens/ContractionTimerScreen.tsx:29 | padded decimal minutes, a colon and padded seconds below 60 form a timer label: digits, a colon third from the end, digits |
| Contraction.LabelReadsBack | app/src/screens/ContractionTimerScreen.tsx:26-29 | the label built from the quotient and remainder by 60 reads back as minutes × 60 + seconds = the duration |
| Contraction.FormatDurationReadsBack | app/src/screens/ContractionTimerScreen.tsx:26-30 | the label is digits, a colon and two digits, and minutes × 60 + seconds read back to the duration |
| Contraction.FormatDuration | app/src/screens/ContractionTimerScreen.tsx:26-30 | for a non-negative duration the label is digits, a colon and two more digits |
| Contraction.Check511Pattern | app/src/screens/ContractionTimerScreen.tsx:37-52 | the answer is yes exactly when there are at least 12 records, the first 12 each last a minute, span at least 55 minutes and are at most 5 minutes apart |
| Contraction.OnlyFirstTwelve | app/src/screens/ContractionTimerScreen.tsx:38-39 | only the newest twelve records matter |
| Contraction.SpanWithinGaps | app/src/screens/ContractionTimerScreen.tsx:41-48 | the distance between two starts is at most the sum of the gaps between them |
| Contraction.GapSumBound | app/src/screens/ContractionTimerScreen.tsx:45-49 | gaps of at most 5 minutes sum to at most 5 minutes each, strictly less if one is shorter |
| Contraction.FiveOneOneNeedsExactGaps | app/src/screens/ContractionTimerScreen.tsx:41-51 | the rule fires only when all eleven gaps are exactly 5 minutes |
| Contraction.SteadyLabourMissed | app/src/screens/ContractionTimerScreen.tsx:41-51 | contractions every 4½ minutes for an hour are not reported, though they meet the sustained pattern |
| Contraction.CheckSustainedPattern | app/src/screens/ContractionTimerScreen.tsx:37-52 | the corrected check answers yes exactly when, from the newest record back, minute-long contractions at most 5 minutes apart cover at least 55 minutes |
| Contraction.FiveOneOneIsSustained | app/src/screens/ContractionTimerScreen.tsx:37-52 | everything the rule as written reports, the corrected rule reports too |
| HospitalBag.CheckedCount | app/src/screens/HospitalBagScreen.tsx:54-103 | the number of checked items: all of them exactly when every item is checked, zero exactly when none is |
| HospitalBag.ToggleSection | app/src/screens/HospitalBagScreen.tsx:77-79 | only the category's collapsed flag flips, a never-toggled one counting as expanded |
| HospitalBag.MakeSections | app/src/screens/HospitalBagScreen.tsx:92-100 | one section per listed category, in order |
| HospitalBag.Sections | app/src/screens/HospitalBagScreen.tsx:81-101 | at most four sections, each with items, checked count at most the total, and empty data exactly when collapsed |
| HospitalBag.Titles | app/src/screens/HospitalBagScreen.tsx:95 | the titles of the sections, in order |
| HospitalBag.SectionTitlesExact | app/src/screens/HospitalBagScreen.tsx:82-91 | the section titles follow 妈妈用品, 宝宝用品, 证件资料, 爸爸用品, and a category is shown exactly when it has an item |
| HospitalBag.SectionItemsExact | app/src/screens/HospitalBagScreen.tsx:82-96 | an expanded section lists exactly its category's items, in list order; a collapsed one lists none |
| HospitalBag.CollapseKeepsCounts | app/src/screens/HospitalBagScreen.tsx:96-98 | collapse state changes only the listed items, never the sections or their counts |
| HospitalBag.LengthIsTotal | app/src/screens/HospitalBagScreen.tsx:98 | counting one per item gives the list length |
| HospitalBag.CheckedCountIsTotal | app/src/screens/HospitalBagScreen.tsx:97 | counting one per checked item gives the checked count |
| HospitalBag.SumsAreGroupTotals | app/src/screens/HospitalBagScreen.tsx:90-100 | the sections' counts add up to the per-category totals |
| HospitalBag.SectionCountsCoverList | app/src/screens/HospitalBagScreen.tsx:81-105 | with every category one of the four, the section totals add up to the list length and the checked counts to the overall checked count |
| HospitalBag.Toggle | app/src/screens/HospitalBagScreen.tsx:45-52 | entries with the tapped id take the opposite of the tapped flag; nothing else changes |
| HospitalBag.ToggleTwice | app/src/screens/HospitalBagScreen.tsx:45-52 | tapping an item and then its updated copy restores the list |
| HospitalBag.ReportOnlyWhenChecking | app/src/screens/HospitalBagScreen.tsx:54-60 | unchecking never triggers the `ready_bag` report; checking the last unchecked item does |
| HospitalBag.Reset | app/src/screens/HospitalBagScreen.tsx:71 | every item unchecked, nothing else changed, so no report |
| HospitalBag.Progress | app/src/screens/HospitalBagScreen.tsx:103-105 | the ratio is within 0..1, exactly 1 when the bag is complete and exactly 0 when nothing is checked |
| HospitalBag.RatioBounds | app/src/screens/HospitalBagScreen.tsx:105 | a count over a positive total lies in 0..1, 1 exactly at the total and 0 exactly at zero |
| HospitalBag.ReadyBagReportCompletes | app/src/services/db/queries.ts:863-889 | with the default achievements, reporting `ready_bag` at 1 completes it |
| AchievementsScreen.CategoryOrderComplete | app/src/screens/AchievementsScreen.tsx:41-47 | the fixed order lists every category once |
| AchievementsScreen.CompletedCount | app/src/screens/AchievementsScreen.tsx:33 | the number of completed achievements, at most the total, zero exactly when none and all exactly when all are completed |
| AchievementsScreen.CompletedCountIsTotal | app/src/screens/AchievementsScreen.tsx:33 | summing one per completed achievement gives the count |
| AchievementsScreen.MakeGroups | app/src/screens/AchievementsScreen.tsx:51-55 | one group per listed category, in order |
| AchievementsScreen.Summarize | app/src/screens/AchievementsScreen.tsx:31-58 | completed count at most the list length, at most five groups, each non-empty with its category's title and only its category's achievements |
| AchievementsScreen.GroupsExact | app/src/screens/AchievementsScreen.tsx:35-55 | groups follow connection, care, preparedness, consistency, learning; a category has a group exactly when it has an achievement, holding exactly its achievements in list order |
| AchievementsScreen.GroupsWeightIsGroupTotals | app/src/screens/AchievementsScreen.tsx:49-55 | any weight summed over the groups equals the per-category totals |
| AchievementsScreen.GroupsPartitionTotals | app/src/screens/AchievementsScreen.tsx:32-55 | the groups partition the list: their earned points add up to `totalPoints` and their completed counts to `completedCount` |
| AchievementsScreen.UnlockNeverLowersSummary | app/src/state/dadStore.ts:70-77 | unlocking never lowers the completed count, nor the points when no achievement is worth negative points |
| MilestoneTemplates.TemplatesWellFormed | app/src/knowledge/milestoneTemplates.ts:3-75 | ids are distinct, suggested weeks lie in 1..40 and strictly increase, and each highlight is a template id |
| MilestoneTemplates.FindTemplate | app/src/knowledge/milestoneTemplates.ts:70-72 | a template exactly when one has the id; the first such template is returned |
| MilestoneTemplates.LookupRoundTrip | app/src/knowledge/milestoneTemplates.ts:70-72 | looking up each template's id returns that template |
| MilestoneTemplates.GetTemplateById | app/src/knowledge/milestoneTemplates.ts:70-72 | a template is found exactly when some template has the id, and the one found has that id |
| MilestoneTemplates.IsHighlightTemplate | app/src/knowledge/milestoneTemplates.ts:74-77 | true exactly for a given id among first_heartbeat, first_kick, gender_reveal, due_date; absent or empty ids are false |
| MilestoneTemplates.HighlightedTemplates | app/src/knowledge/milestoneTemplates.ts:74-77 | exactly the first, third, fourth and eighth templates are highlighted |
| Grouping.GroupExact | app/src/screens/AchievementsScreen.tsx:35-39 | a key's group holds every member with that key and only list members, in list order, and is non-empty exactly when some member has the key |
| Grouping.GroupCounts | app/src/screens/AchievementsScreen.tsx:35-39 | a key's group holds each member with that key exactly as often as the list does, and nothing else |
| Grouping.ShownExact | app/src/screens/AchievementsScreen.tsx:49-50 | the shown keys keep the fixed order and are exactly the ordered keys that have members |
| Grouping.GroupsPartition | app/src/screens/HospitalBagScreen.tsx:81-98 | when every member's key occurs once in the order, the group totals add up to the list total for any weight |
| Sql.LikeSurroundContains | app/src/services/kb/kbService.ts:127-131 | `text LIKE '%q%'` for a wildcard-free q is an ASCII case-insensitive substring test |
| Sql.LikeEverything | app/src/services/kb/kbService.ts:131 | the pattern `'%%'` matches every text |
| Sql.Limit | app/src/services/kb/kbService.ts:129 | `LIMIT n` keeps the first n rows, all of them for a negative n |
| Sql.Upsert | app/src/services/kb/knowledgeDb.ts:203-207 | `INSERT OR REPLACE` removes the row with the same key and appends the new one; other rows stay and keys stay unique |
| Sql.UpsertAllLastWins | app/src/services/kb/knowledgeDb.ts:200-208 | after a run of upserts the last row for each key survives |
| Sql.ReplaceAllCount | app/src/services/kb/knowledgeDb.ts:199-208 | replacing a table's contents leaves one row per distinct key |
| Sql.TextLessTrans | app/src/services/db/queries.ts:175 | the text order of `ORDER BY updated_at` is transitive |
| Js.Trim | app/src/services/kb/intentDetector.ts:35-37 | `trim` cuts only whitespace, none is left at either end, and the result is empty exactly for blank input |
| Js.Rem | app/src/lib/pregnancy.ts:23 | JavaScript's `%` keeps the dividend's sign |
| Js.FloorDiv | app/src/lib/pregnancy.ts:22 | `Math.floor(a / b)` is the largest q with q·b ≤ a |
| Js.NatToStringInjective | app/src/lib/pregnancy.ts:105 | distinct naturals render as distinct decimal strings |
| Js.IntToStringInjective | app/src/lib/pregnancy.ts:105 | distinct integers, negative ones included, render as distinct strings |

## Left out

- Database handles. Every user-database query first returns a fallback when the handle is null (`return null`, `-1`, `false`, nothing); those paths are not modelled for `ProfileDb`, `AiConfigDb`, `RecordsDb` and `GrowthDb`. The knowledge-database functions do model the no-handle path.
- The other queries: `getAIConfig`, `getAllAIConfigs`, `updateAIConfig`, `saveAIConfig`, chat history, contractions, kick sessions, checklist storage, emergency contacts, memory and milestone listing, insertion and deletion, `getAchievements`, `getFoodByName`, `getAllEmergencies`. These are single statements outside the invariants modelled here.
- FTS5 tokenisation and `bm25` ranking. The index is an oracle that fails or names rows, in rank order.
- JSON encoding of list columns. Lists are stored as sequences.
- Schema DDL, the WAL pragma and column migrations. Only the `safety_level` CHECK is kept. A schema failure is modelled as leaving the handle set with the file as found; the missing tables it may leave behind are not modelled.
- Console logging in the seeder and initialiser.
- PregnancyStore.StoreAgreesWithProgress: agreement is stated for the same whole-day difference, not the same due date. The store measures from the current instant (`dayjs()`, app/src/state/pregnancyStore.ts:47) and `calculatePregnancyProgress` from the start of today (app/src/lib/pregnancy.ts:19), so after midnight `diff` truncates a fractional day and the two can report days one apart, and weeks one apart when that crosses a multiple of 7.
- Dates and the clock. `dayjs`, `new Date` and `datetime('now')` become parameters, and an invalid date is a parser returning `None`. `Pregnancy.CalculatePregnancyProgress` takes the whole-day difference that `dayjs.diff` would give. NaN arithmetic on invalid dates is not modelled. `GrowthDb.AddXpEvent` writes `last_calculated_at` with `datetime("now")` in double quotes, which works only through SQLite's fallback that reads an unknown double-quoted identifier as a string; the model assumes that fallback is on, so the "no such column" failure it would otherwise raise is not modelled.
- Floating point. `progressPercent` is not modelled. The hospital-bag progress is a real ratio, not a double. Weights are reals.
- Unicode case folding. `toLowerCase` is ASCII-only, and CJK text is unaffected.
- `Pregnancy.CalculatePregnancyProgress`: does not state `progressPercent`, because it is a floating-point display value.
- Timers, animations and rendering: the 2.5-second badge reset in `addXP`, the `Alert` dialogs of the hospital-bag screen, and the colours and icons of `CATEGORY_CONFIG`.
- `HospitalBag.Toggle`: models the list update only. The checklist table write and the result of the achievement call are not modelled, since they are storage and dialog plumbing.
- `HospitalBag.SectionCountsCoverList`: requires every item's category to be one of the four listed. Items of other categories are dropped from the sections, and the totals then fall short of the list.
- `AchievementsScreen.UnlockNeverLowersSummary`: requires non-negative points, because a completed negative-points achievement would lower the total.
- `PregnancyStore.Clear`: states only that the profile and week data are gone. The full reset is stated by `PregnancyStore.ClearIsQuiescent`.
- Network, AI providers and the chat orchestration in `useChat`. These are I/O.
- The build-time import script for the knowledge base.
- `app/src/constants/index.ts` is not part of this model. The trimester bounds 13 and 27 it supplies to the pregnancy store are written into `PregnancyStore`.

## Findings

| source | as written | input that shows it | evidently intended | confidence | as-written member | corrected member |
|---|---|---|---|---|---|---|
| app/src/screens/ContractionTimerScreen.tsx:41-51 | the 5-1-1 check requires twelve starts spanning at least 55 minutes with each adjacent gap at most 5 minutes; eleven gaps of at most 5 minutes span at most 55, so it fires only when every gap is exactly 5:00.000 | twelve one-minute contractions starting every 4½ minutes (`Contraction.EveryFourAndAHalf`): gaps all within 5 minutes, span 49½ minutes, never reported | report once minute-long contractions at most 5 minutes apart have been sustained for about an hour | high (derived by proof; not executed) | Contraction.Check511Pattern, Contraction.FiveOneOneNeedsExactGaps, Contraction.SteadyLabourMissed | Contraction.CheckSustainedPattern, Contraction.FiveOneOneIsSustained |
