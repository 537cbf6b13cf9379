/** `initializeKnowledgeBase` (app/src/services/kb/kbInit.ts): open the
    knowledge database, and when the stored version differs from the
    bundled one, reseed the four content tables in order and record the new
    version last. Any thrown error turns into a failed result with zero
    stats and an empty version; seeds that already committed stay. */
module KbInit {
  import opened Wrappers
  import opened KbTypes
  import opened Sql
  import opened KnowledgeDb

  /** `KB_VERSION`. */
  const KbVersion: string := "1.1.0"

  /** The four bundled JSON data files. */
  datatype Bundle = Bundle(
    foods: seq<FoodData>,
    symptoms: seq<SymptomData>,
    emotional: seq<EmotionalData>,
    emergencies: seq<EmergencyData>)

  /** Which storage steps the platform makes throw: the open, the
      `getKbVersion` read, the four seeds, the `setKbVersion` write and the
      closing `getKbStats` read. None of them catches its own error, so each
      lands in the one `catch` of the initialiser. */
  datatype Faults = Faults(open: OpenFault, steps: Steps)

  /** The faults of the steps after the open. */
  datatype Steps = Steps(
    versionRead: bool,
    food: bool, symptom: bool, emotional: bool, emergency: bool,
    versionWrite: bool, stats: bool)

  const NoStepFaults := Steps(false, false, false, false, false, false, false)
  const NoFaults := Faults(NoOpenFault, NoStepFaults)

  /** The returned record, plus the module's database session afterwards. */
  datatype InitOutcome = InitOutcome(session: KbSession, success: bool, stats: KbStats, version: string)

  function Failed(s: KbSession): InitOutcome {
    InitOutcome(s, false, ZeroStats, "")
  }

  function Succeeded(s: KbSession): InitOutcome {
    InitOutcome(s, true, GetKbStats(s), KbVersion)
  }

  /** The closing `getKbStats` read, which fails the whole run when it
      throws, whatever was written before it. */
  function Finish(s: KbSession, statsFault: bool): (r: InitOutcome)
    ensures r.session == s
    ensures r.success <==> !statsFault
    ensures r.success ==> r.version == KbVersion && r.stats == GetKbStats(s)
    ensures !r.success ==> r.version == "" && r.stats == ZeroStats
  {
    if statsFault then Failed(s) else Succeeded(s)
  }

  predicate LevelsValid(foods: seq<FoodData>) {
    forall i :: 0 <= i < |foods| ==> ParseSafetyLevel(foods[i].safetyLevel).Some?
  }

  /** The seeding branch, run on an open session: each seed sees the session
      the previous one left, and the version is written only after all four
      committed. A failure leaves the meta table as it was, except when only
      the closing stats read throws: the version is written by then. */
  function Reseed(s: KbSession, b: Bundle, f: Steps): (r: InitOutcome)
    requires s.handle.Some?
    ensures r.success ==> r.version == KbVersion && r.stats == GetKbStats(r.session)
    ensures !r.success ==> r.version == "" && r.stats == ZeroStats
    ensures r.session.handle.Some?
    ensures !r.success && !f.stats ==> r.session.handle.value.meta == s.handle.value.meta
    ensures || r.session.handle.value.meta == s.handle.value.meta
            || r.session.handle.value.meta == s.handle.value.meta[VersionKey := KbVersion]
  {
    var a := SeedFoodData(s, b.foods, f.food);
    FoodSeedKeepsMeta(s, b.foods, f.food);
    if a.count.Err? then Failed(a.session)
    else
      var c := SeedSymptomData(a.session, b.symptoms, f.symptom);
      SymptomSeedKeepsMeta(a.session, b.symptoms, f.symptom);
      if c.count.Err? then Failed(c.session)
      else
        var d := SeedEmotionalData(c.session, b.emotional, f.emotional);
        EmotionalSeedKeepsMeta(c.session, b.emotional, f.emotional);
        if d.count.Err? then Failed(d.session)
        else
          var e := SeedEmergencyData(d.session, b.emergencies, f.emergency);
          EmergencySeedKeepsMeta(d.session, b.emergencies, f.emergency);
          if e.count.Err? then Failed(e.session)
          else if f.versionWrite then Failed(e.session)
          else Finish(SetKbVersion(e.session, KbVersion), f.stats)
  }

  /** `initializeKnowledgeBase`. `disk` is the database file the first open
      finds. */
  function InitializeKnowledgeBase(s: KbSession, disk: KbStore, b: Bundle, f: Faults): (r: InitOutcome)
    ensures r.success ==> r.version == KbVersion && r.stats == GetKbStats(r.session)
    ensures !r.success ==> r.version == "" && r.stats == ZeroStats
  {
    var o := OpenKnowledgeDatabase(s, disk, f.open);
    if o.db.Err? then Failed(o.session) else Run(o.session, b, f.steps)
  }

  /** Everything after the open: the version read, then either the reseed
      or straight to the stats read. */
  function Run(s0: KbSession, b: Bundle, f: Steps): (r: InitOutcome)
    requires s0.handle.Some?
    ensures r.success ==> r.version == KbVersion && r.stats == GetKbStats(r.session)
    ensures !r.success ==> r.version == "" && r.stats == ZeroStats
    ensures r.session.handle.Some?
  {
    if f.versionRead then Failed(s0)
    else if GetKbVersion(s0) == Some(KbVersion) then Finish(s0, f.stats)
    else Reseed(s0, b, f)
  }

  /** The session the open step leaves, when it succeeds. */
  function Opened(s: KbSession, disk: KbStore): (r: KbSession)
    ensures r.handle.Some?
    ensures s.handle.Some? ==> r == s
  {
    if s.handle.Some? then s else KbSession(Some(disk))
  }

  /** When the stored version already matches, nothing is written; the run
      succeeds with the stats of the tables as they are unless the version
      read or the stats read throws. */
  lemma CurrentVersionSkipsSeeding(s: KbSession, disk: KbStore, b: Bundle, f: Faults)
    requires s.handle.Some? || f.open.NoOpenFault?
    requires GetKbVersion(Opened(s, disk)) == Some(KbVersion)
    ensures InitializeKnowledgeBase(s, disk, b, f) ==
      if f.steps.versionRead || f.steps.stats then InitOutcome(Opened(s, disk), false, ZeroStats, "")
      else InitOutcome(Opened(s, disk), true, GetKbStats(Opened(s, disk)), KbVersion)
  {
  }

  /** The reseed succeeds exactly when every seed, the version write and
      the stats read go through; the food seed also needs every safety level
      valid. */
  lemma ReseedSuccessIff(s: KbSession, b: Bundle, f: Steps)
    requires s.handle.Some?
    ensures Reseed(s, b, f).success <==>
      && LevelsValid(b.foods) && !f.food && !f.symptom && !f.emotional && !f.emergency && !f.versionWrite && !f.stats
  {
    if Reseed(s, b, f).success {
      ReseedSuccessNeedsNoFault(s, b, f);
    } else {
      ReseedFailureHasFault(s, b, f);
    }
  }

  lemma ReseedSuccessNeedsNoFault(s: KbSession, b: Bundle, f: Steps)
    requires s.handle.Some? && Reseed(s, b, f).success
    ensures LevelsValid(b.foods) && !f.food && !f.symptom && !f.emotional && !f.emergency && !f.versionWrite && !f.stats
  {
    var a := SeedFoodData(s, b.foods, f.food);
    var c := SeedSymptomData(a.session, b.symptoms, f.symptom);
    var d := SeedEmotionalData(c.session, b.emotional, f.emotional);
    var e := SeedEmergencyData(d.session, b.emergencies, f.emergency);
  }

  lemma ReseedFailureHasFault(s: KbSession, b: Bundle, f: Steps)
    requires s.handle.Some? && !Reseed(s, b, f).success
    ensures !(LevelsValid(b.foods) && !f.food && !f.symptom && !f.emotional && !f.emergency && !f.versionWrite && !f.stats)
  {
    var a := SeedFoodData(s, b.foods, f.food);
    var c := SeedSymptomData(a.session, b.symptoms, f.symptom);
    var d := SeedEmotionalData(c.session, b.emotional, f.emotional);
    var e := SeedEmergencyData(d.session, b.emergencies, f.emergency);
  }

  /** Exactly when initialisation reports success: the database opened, both
      reads went through, and either the version was current or every seed
      and the version write went through. */
  lemma SuccessIff(s: KbSession, disk: KbStore, b: Bundle, f: Faults)
    ensures InitializeKnowledgeBase(s, disk, b, f).success <==>
      && (s.handle.Some? || f.open.NoOpenFault?)
      && !f.steps.versionRead && !f.steps.stats
      && (|| GetKbVersion(Opened(s, disk)) == Some(KbVersion)
          || (&& LevelsValid(b.foods) && !f.steps.food && !f.steps.symptom && !f.steps.emotional
              && !f.steps.emergency && !f.steps.versionWrite))
  {
    if s.handle.Some? || f.open.NoOpenFault? {
      var s0 := Opened(s, disk);
      assert OpenKnowledgeDatabase(s, disk, f.open) == OpenOutcome(s0, Ok(s0.handle.value));
      if !f.steps.versionRead && GetKbVersion(s0) != Some(KbVersion) {
        ReseedSuccessIff(s0, b, f.steps);
      }
    }
  }

  /** After a reseed, the version row reads `KB_VERSION`, every table holds
      one row per distinct key of its bundle, and the reported counts are
      those distinct-key counts, not the record counts. */
  lemma ReseedContents(s: KbSession, b: Bundle)
    requires s.handle.Some?
    requires LevelsValid(b.foods)
    ensures var r := Reseed(s, b, NoStepFaults);
      && r.success
      && GetKbVersion(r.session) == Some(KbVersion)
      && Reseeded(r.session.handle.value.foods, b.foods, MapFoodRows(b.foods).value, FoodDataKey, FoodKey)
      && Reseeded(r.session.handle.value.symptoms, b.symptoms, SymptomRows(b.symptoms), SymptomDataKey, SymptomKey)
      && Reseeded(r.session.handle.value.emotional, b.emotional, EmotionalRows(b.emotional), EmotionalDataKey, EmotionalKey)
      && Reseeded(r.session.handle.value.emergencies, b.emergencies, EmergencyRows(b.emergencies), EmergencyDataKey, EmergencyKey)
      && r.stats == KbStats(|Keys(b.foods, FoodDataKey)|, |Keys(b.symptoms, SymptomDataKey)|,
                           |Keys(b.emotional, EmotionalDataKey)|, |Keys(b.emergencies, EmergencyDataKey)|)
  {
    var a := SeedFoodData(s, b.foods, false);
    var c := SeedSymptomData(a.session, b.symptoms, false);
    var d := SeedEmotionalData(c.session, b.emotional, false);
    var e := SeedEmergencyData(d.session, b.emergencies, false);
    VersionRoundTrip(e.session, KbVersion, KbVersion);
  }

  /** A reseed that fails before its stats read leaves the stored version
      as it was, so the next start tries again; one that fails only at the
      stats read has already stored `KB_VERSION`. */
  lemma FailureLeavesVersion(s: KbSession, b: Bundle, f: Steps)
    requires s.handle.Some?
    requires !Reseed(s, b, f).success
    ensures !f.stats ==> GetKbVersion(Reseed(s, b, f).session) == GetKbVersion(s)
    ensures GetKbVersion(Reseed(s, b, f).session) in {GetKbVersion(s), Some(KbVersion)}
  {
    var r := Reseed(s, b, f);
    if r.session.handle.value.meta != s.handle.value.meta {
      assert r.session.handle.value.meta == s.handle.value.meta[VersionKey := KbVersion];
    }
  }

  /** A reseed whose writes all go through but whose stats read throws
      fails with `KB_VERSION` stored. */
  lemma StatsFaultAfterVersionWrite(s: KbSession, b: Bundle, f: Steps)
    requires s.handle.Some?
    requires LevelsValid(b.foods) && !f.food && !f.symptom && !f.emotional && !f.emergency && !f.versionWrite
    requires f.stats
    ensures var r := Reseed(s, b, f);
      !r.success && r.session.handle.Some? && GetKbVersion(r.session) == Some(KbVersion)
  {
    var a := SeedFoodData(s, b.foods, f.food);
    var c := SeedSymptomData(a.session, b.symptoms, f.symptom);
    var d := SeedEmotionalData(c.session, b.emotional, f.emotional);
    var e := SeedEmergencyData(d.session, b.emergencies, f.emergency);
    assert Reseed(s, b, f) == Failed(SetKbVersion(e.session, KbVersion));
    VersionRoundTrip(e.session, KbVersion, KbVersion);
  }

  /** When every write goes through and only the closing stats read throws,
      initialisation reports failure with `KB_VERSION` already stored, and
      the next start skips seeding whatever bundle it brings. */
  lemma StatsFaultSkipsNextReseed(s: KbSession, disk: KbStore, disk2: KbStore, b: Bundle, b2: Bundle, f: Faults, f2: Faults)
    requires s.handle.Some? || f.open.NoOpenFault?
    requires !f.steps.versionRead && GetKbVersion(Opened(s, disk)) != Some(KbVersion)
    requires LevelsValid(b.foods) && !f.steps.food && !f.steps.symptom && !f.steps.emotional
    requires !f.steps.emergency && !f.steps.versionWrite && f.steps.stats
    ensures var r := InitializeKnowledgeBase(s, disk, b, f);
      && !r.success
      && GetKbVersion(r.session) == Some(KbVersion)
      && InitializeKnowledgeBase(r.session, disk2, b2, f2) ==
           if f2.steps.versionRead || f2.steps.stats then InitOutcome(r.session, false, ZeroStats, "")
           else InitOutcome(r.session, true, GetKbStats(r.session), KbVersion)
  {
    var s0 := Opened(s, disk);
    assert OpenKnowledgeDatabase(s, disk, f.open) == OpenOutcome(s0, Ok(s0.handle.value));
    StatsFaultAfterVersionWrite(s0, b, f.steps);
    var s1 := Reseed(s0, b, f.steps).session;
    assert InitializeKnowledgeBase(s, disk, b, f) == Reseed(s0, b, f.steps);
    CurrentVersionSkipsSeeding(s1, disk2, b2, f2);
  }

  /** No seed touches the meta table. */
  lemma FoodSeedKeepsMeta(s: KbSession, foods: seq<FoodData>, fault: bool)
    requires s.handle.Some?
    ensures var r := SeedFoodData(s, foods, fault).session;
      r.handle.Some? && r.handle.value.meta == s.handle.value.meta
  {
  }

  lemma SymptomSeedKeepsMeta(s: KbSession, symptoms: seq<SymptomData>, fault: bool)
    requires s.handle.Some?
    ensures var r := SeedSymptomData(s, symptoms, fault).session;
      r.handle.Some? && r.handle.value.meta == s.handle.value.meta
  {
  }

  lemma EmotionalSeedKeepsMeta(s: KbSession, scenarios: seq<EmotionalData>, fault: bool)
    requires s.handle.Some?
    ensures var r := SeedEmotionalData(s, scenarios, fault).session;
      r.handle.Some? && r.handle.value.meta == s.handle.value.meta
  {
  }

  lemma EmergencySeedKeepsMeta(s: KbSession, emergencies: seq<EmergencyData>, fault: bool)
    requires s.handle.Some?
    ensures var r := SeedEmergencyData(s, emergencies, fault).session;
      r.handle.Some? && r.handle.value.meta == s.handle.value.meta
  {
  }

  /** When the symptom seed throws, the food seed before it stays committed
      and the later tables are untouched. */
  lemma EarlierSeedsStayCommitted(s: KbSession, b: Bundle, f: Steps)
    requires s.handle.Some?
    requires LevelsValid(b.foods) && !f.food && f.symptom
    ensures var r := Reseed(s, b, f);
      && !r.success
      && Reseeded(r.session.handle.value.foods, b.foods, MapFoodRows(b.foods).value, FoodDataKey, FoodKey)
      && r.session.handle.value.symptoms == s.handle.value.symptoms
      && r.session.handle.value.emotional == s.handle.value.emotional
      && r.session.handle.value.emergencies == s.handle.value.emergencies
  {
  }

  /** A reseed that succeeded wrote `KB_VERSION` last. */
  lemma ReseedWritesVersion(s: KbSession, b: Bundle, f: Steps)
    requires s.handle.Some? && Reseed(s, b, f).success
    ensures GetKbVersion(Reseed(s, b, f).session) == Some(KbVersion)
  {
    var a := SeedFoodData(s, b.foods, f.food);
    var c := SeedSymptomData(a.session, b.symptoms, f.symptom);
    var d := SeedEmotionalData(c.session, b.emotional, f.emotional);
    var e := SeedEmergencyData(d.session, b.emergencies, f.emergency);
    assert Reseed(s, b, f).session == SetKbVersion(e.session, KbVersion);
    VersionRoundTrip(e.session, KbVersion, KbVersion);
  }

  /** A successful initialisation leaves the session open at `KB_VERSION`. */
  lemma SuccessMeansCurrent(s: KbSession, disk: KbStore, b: Bundle, f: Faults)
    requires InitializeKnowledgeBase(s, disk, b, f).success
    ensures InitializeKnowledgeBase(s, disk, b, f).session.handle.Some?
    ensures GetKbVersion(InitializeKnowledgeBase(s, disk, b, f).session) == Some(KbVersion)
  {
    var s0 := Opened(s, disk);
    assert OpenKnowledgeDatabase(s, disk, f.open) == OpenOutcome(s0, Ok(s0.handle.value));
    if GetKbVersion(s0) != Some(KbVersion) {
      ReseedWritesVersion(s0, b, f.steps);
    }
  }

  /** When the schema step throws on the first open, initialisation fails
      but the handle stays; the next run skips opening altogether, so its
      result no longer depends on the disk or on the open fault. */
  lemma SchemaFailureKeepsHandle(s: KbSession, disk: KbStore, disk2: KbStore, b: Bundle, b2: Bundle, f: Faults, f2: Faults)
    requires s.handle.None? && f.open.SchemaFails?
    ensures var r := InitializeKnowledgeBase(s, disk, b, f);
      && !r.success
      && r.session == KbSession(Some(disk))
      && InitializeKnowledgeBase(r.session, disk2, b2, f2)
         == InitializeKnowledgeBase(r.session, disk, b2, f2.(open := NoOpenFault))
  {
    var s1 := KbSession(Some(disk));
    assert OpenKnowledgeDatabase(s, disk, f.open) == OpenOutcome(s1, Err(StorageFault));
    assert OpenKnowledgeDatabase(s1, disk2, f2.open) == OpenOutcome(s1, Ok(disk));
    assert OpenKnowledgeDatabase(s1, disk, NoOpenFault) == OpenOutcome(s1, Ok(disk));
  }

  /** Once an initialisation succeeded, running it again writes nothing,
      whatever the bundle, the disk or the open and write faults; it
      succeeds unless one of its two reads throws. */
  lemma SecondRunIsNoOp(s: KbSession, disk: KbStore, disk2: KbStore, b: Bundle, b2: Bundle, f: Faults, f2: Faults)
    requires InitializeKnowledgeBase(s, disk, b, f).success
    ensures var s1 := InitializeKnowledgeBase(s, disk, b, f).session;
      InitializeKnowledgeBase(s1, disk2, b2, f2) ==
        if f2.steps.versionRead || f2.steps.stats then InitOutcome(s1, false, ZeroStats, "")
        else InitOutcome(s1, true, GetKbStats(s1), KbVersion)
  {
    SuccessMeansCurrent(s, disk, b, f);
  }
}
