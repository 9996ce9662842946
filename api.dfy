/**
 * The HTTP layer of the backend as far as it decides anything: request
 * validation (the field bounds and validators of `TriageRequest` and
 * `VitalsRequest`), the `limit` check of the recent-records endpoints, the
 * statistics endpoint, and the two POST endpoints that validate and then
 * hand over to the triage core. Status codes are those FastAPI sends: 422
 * for a request that fails validation, 400 for a rejected `limit`.
 */
module Api {
  import opened Wrappers
  import opened PyStr
  import opened Store
  import opened TriageCore

  const ValidationStatus: nat := 422
  const BadRequestStatus: nat := 400

  // ---------------------------------------------------------------------
  // `TriageRequest.symptoms`

  const MinSymptomsLength: nat := 5
  const MaxSymptomsLength: nat := 2000
  const PiiIndicators: seq<string> := ["ssn", "social security", "credit card", "phone number"]

  /** Why the `symptoms` field was refused, in the order the checks run. */
  datatype SymptomsError =
    | TooShort       // `min_length=5` on the text as sent
    | TooLong        // `max_length=2000` on the text as sent
    | Blank          // "Symptoms cannot be empty"
    | SensitiveInfo  // "Symptoms appear to contain sensitive information"

  /** `any(indicator in v.lower() for indicator in pii_indicators)` */
  predicate HasPii(v: string) {
    exists k :: 0 <= k < |PiiIndicators| && Contains(Lower(v), PiiIndicators[k])
  }

  /**
   * The `symptoms` field: the length bounds are checked on the text as sent,
   * then `validate_symptoms` rejects blank text and text with a PII indicator
   * and hands on the stripped text.
   */
  function ValidateSymptoms(v: string): (r: Result<string, SymptomsError>)
    ensures r.Success? <==>
              MinSymptomsLength <= |v| <= MaxSymptomsLength && Strip(v) != [] && !HasPii(v)
    ensures r.Success? ==> r.value == Strip(v)
    ensures |v| < MinSymptomsLength ==> r == Failure(TooShort)
    ensures |v| > MaxSymptomsLength ==> r == Failure(TooLong)
    ensures MinSymptomsLength <= |v| <= MaxSymptomsLength && HasPii(v) ==> r.Failure?
    ensures MinSymptomsLength <= |v| <= MaxSymptomsLength && Strip(v) == [] ==> r == Failure(Blank)
    ensures MinSymptomsLength <= |v| <= MaxSymptomsLength && Strip(v) != [] && HasPii(v) ==>
              r == Failure(SensitiveInfo)
  {
    if |v| < MinSymptomsLength then Failure(TooShort)
    else if |v| > MaxSymptomsLength then Failure(TooLong)
    else if Strip(v) == [] then Failure(Blank)
    else if HasPii(v) then Failure(SensitiveInfo)
    else Success(Strip(v))
  }

  /** Whatever occurs in the lower-cased stripped text occurs in the lower-cased text as sent. */
  lemma ContainsAfterStrip(v: string, key: string)
    requires Strip(v) != [] && Contains(Lower(Strip(v)), key)
    ensures Contains(Lower(v), key)
  {
    StripIsSlice(v);
    LowerSlice(v, StripStart(v), StripEnd(v));
    ContainsInSlice(Lower(v), key, StripStart(v), StripEnd(v));
  }

  /** Accepted symptoms are non-blank, carry no surrounding whitespace and no PII indicator. */
  lemma AcceptedSymptomsAreClean(v: string)
    requires ValidateSymptoms(v).Success?
    ensures var s := ValidateSymptoms(v).value;
            s != [] && Strip(s) == s && !HasPii(s) && |s| <= MaxSymptomsLength
  {
    var s := Strip(v);
    StripNoPadding(s);
    if HasPii(s) {
      var k :| 0 <= k < |PiiIndicators| && Contains(Lower(s), PiiIndicators[k]);
      ContainsAfterStrip(v, PiiIndicators[k]);
    }
  }

  /** Validating accepted symptoms again accepts them unchanged, when they are still long enough. */
  lemma RevalidateAccepted(v: string)
    requires ValidateSymptoms(v).Success? && |ValidateSymptoms(v).value| >= MinSymptomsLength
    ensures ValidateSymptoms(ValidateSymptoms(v).value) == ValidateSymptoms(v)
  {
    AcceptedSymptomsAreClean(v);
  }

  /** Whitespace-only text is refused, whatever its length. */
  lemma BlankSymptomsRejected(v: string)
    requires forall i :: 0 <= i < |v| ==> IsSpace(v[i])
    ensures ValidateSymptoms(v).Failure?
  {
  }

  /** "Hi" is too short. */
  lemma ShortSymptomsRejected()
    ensures ValidateSymptoms("Hi") == Failure(TooShort)
  {
  }

  /**
   * The length bound applies before stripping: four spaces and a letter
   * pass, and the symptoms handed on are one character long.
   */
  lemma PaddedShortSymptomsAccepted()
    ensures ValidateSymptoms("    a") == Success("a")
    ensures ValidateSymptoms("a") == Failure(TooShort)
  {
    var v := "    a";
    assert StripStart(v) == 4 && StripEnd(v) == 5;
    assert Strip(v) == "a";
    assert Lower(v) == v;
    NotContainsMissingChar(v, "ssn", 's');
    NotContainsMissingChar(v, "social security", 's');
    NotContainsMissingChar(v, "credit card", 'c');
    NotContainsMissingChar(v, "phone number", 'p');
    assert !HasPii(v);
  }

  // ---------------------------------------------------------------------
  // `VitalsRequest`

  datatype VitalsField = Pulse | SystolicBP | DiastolicBP

  /** One validation error of a vitals request. */
  datatype VitalsError =
    | OutOfRange(field: VitalsField, lo: int, hi: int)  // `ge=` / `le=` of the field
    | DiastolicNotBelowSystolic                           // "Diastolic BP must be lower than systolic BP"

  const PulseRange: (int, int) := (30, 250)
  const SystolicRange: (int, int) := (60, 300)
  const DiastolicRange: (int, int) := (30, 200)

  function RangeError(field: VitalsField, x: int, range: (int, int)): seq<VitalsError> {
    if Within(x, range.0, range.1) then [] else [OutOfRange(field, range.0, range.1)]
  }

  /**
   * The errors of a vitals request, field by field in declaration order. The
   * diastolic validator runs only when the diastolic value passed its own
   * bounds, and compares only when the systolic value was accepted.
   */
  function VitalsErrors(pulse: int, systolicBP: int, diastolicBP: int): (errs: seq<VitalsError>)
    ensures |errs| <= 3
    ensures forall e :: e in errs ==>
              e in [OutOfRange(Pulse, 30, 250), OutOfRange(SystolicBP, 60, 300),
                    OutOfRange(DiastolicBP, 30, 200), DiastolicNotBelowSystolic]
    ensures forall i, j :: 0 <= i < j < |errs| ==> errs[i] != errs[j]
    ensures OutOfRange(Pulse, 30, 250) in errs <==> !Within(pulse, 30, 250)
    ensures OutOfRange(SystolicBP, 60, 300) in errs <==> !Within(systolicBP, 60, 300)
    ensures OutOfRange(DiastolicBP, 30, 200) in errs <==> !Within(diastolicBP, 30, 200)
    ensures DiastolicNotBelowSystolic in errs <==>
              Within(systolicBP, 60, 300) && Within(diastolicBP, 30, 200) && diastolicBP >= systolicBP
    ensures errs == [] <==>
              Within(pulse, 30, 250) && Within(systolicBP, 60, 300) && Within(diastolicBP, 30, 200) &&
              diastolicBP < systolicBP
  {
    var diastolic :=
      if !Within(diastolicBP, DiastolicRange.0, DiastolicRange.1) then
        [OutOfRange(DiastolicBP, DiastolicRange.0, DiastolicRange.1)]
      else if Within(systolicBP, SystolicRange.0, SystolicRange.1) && diastolicBP >= systolicBP then
        [DiastolicNotBelowSystolic]
      else [];
    RangeError(Pulse, pulse, PulseRange) + RangeError(SystolicBP, systolicBP, SystolicRange) + diastolic
  }

  /** A request that passes validation. */
  function ValidateVitals(pulse: int, systolicBP: int, diastolicBP: int): (r: Result<Vitals, seq<VitalsError>>)
    ensures r.Success? <==> VitalsErrors(pulse, systolicBP, diastolicBP) == []
    ensures r.Success? ==> r.value == Vitals(pulse, systolicBP, diastolicBP)
    ensures r.Success? <==>
              30 <= pulse <= 250 && 60 <= systolicBP <= 300 && 30 <= diastolicBP <= 200 &&
              diastolicBP < systolicBP
    ensures r.Failure? ==> r.error == VitalsErrors(pulse, systolicBP, diastolicBP) && r.error != []
  {
    var errs := VitalsErrors(pulse, systolicBP, diastolicBP);
    if errs == [] then Success(Vitals(pulse, systolicBP, diastolicBP)) else Failure(errs)
  }

  /** A pulse of 300 is refused by its bound alone. */
  lemma PulseTooHighRejected()
    ensures ValidateVitals(300, 120, 80) == Failure([OutOfRange(Pulse, 30, 250)])
  {
    assert RangeError(Pulse, 300, PulseRange) == [OutOfRange(Pulse, 30, 250)];
    assert RangeError(SystolicBP, 120, SystolicRange) == [];
    assert VitalsErrors(300, 120, 80) == [OutOfRange(Pulse, 30, 250)] + [] + [];
    assert VitalsErrors(300, 120, 80) == [OutOfRange(Pulse, 30, 250)];
  }

  /** Diastolic 90 above systolic 80 is refused by the blood-pressure validator. */
  lemma DiastolicAboveSystolicRejected()
    ensures ValidateVitals(80, 80, 90) == Failure([DiastolicNotBelowSystolic])
  {
    assert RangeError(Pulse, 80, PulseRange) == [];
    assert RangeError(SystolicBP, 80, SystolicRange) == [];
    assert VitalsErrors(80, 80, 90) == [] + [] + [DiastolicNotBelowSystolic];
    assert VitalsErrors(80, 80, 90) == [DiastolicNotBelowSystolic];
  }

  /** A systolic value outside its bounds suppresses the comparison with the diastolic one. */
  lemma SystolicOutOfRangeSkipsComparison(pulse: int, systolicBP: int, diastolicBP: int)
    requires !Within(systolicBP, 60, 300)
    ensures DiastolicNotBelowSystolic !in VitalsErrors(pulse, systolicBP, diastolicBP)
  {
  }

  /** Validation and flagging use different bounds: accepted readings can still raise every flag. */
  lemma AcceptedVitalsMayBeFlagged()
    ensures ValidateVitals(250, 300, 200).Success?
    ensures EvaluateVitals(ValidateVitals(250, 300, 200).value) == VitalsFlags(true, true, true, true)
  {
  }

  // ---------------------------------------------------------------------
  // The recent-records endpoints

  const LimitMessage: string := "Limit must be between 1 and 100"

  /** The answer of `GET /api/triage/recent` and `GET /api/vitals/recent`; the timestamp is left out. */
  datatype RecentResponse<R> =
    | RecentRecords(records: seq<Record<R>>, count: nat)
    | LimitRejected(status: nat, detail: string)

  /**
   * A `limit` outside 1..100 is refused before the store is asked; otherwise
   * the table's newest records are returned with their count.
   */
  function GetRecent<R>(db: Table<R>, limit: int): (r: RecentResponse<R>)
    reads db
    ensures !(1 <= limit <= 100) ==> r == LimitRejected(BadRequestStatus, LimitMessage)
    ensures 1 <= limit <= 100 ==>
              r.RecentRecords? && r.records == db.Recent(limit) && r.count == |r.records| &&
              r.count <= limit
  {
    if limit < 1 || limit > 100 then LimitRejected(BadRequestStatus, LimitMessage)
    else
      var records := db.Recent(limit);
      RecentRecords(records, |records|)
  }

  /** The answer to a refused `limit` does not depend on the store. */
  lemma LimitRejectionIgnoresStore<R>(a: Table<R>, b: Table<R>, limit: int)
    requires !(1 <= limit <= 100)
    ensures GetRecent(a, limit) == GetRecent(b, limit)
  {
  }

  // ---------------------------------------------------------------------
  // `GET /api/stats`

  /** The key a triage record is counted under: `record.get('triage_level', 'Unknown')`. */
  function LevelKey(level: Option<string>): (key: string)
    ensures level.None? ==> key == "Unknown"
    ensures level.Some? ==> key == level.value
  {
    level.GetOr("Unknown")
  }

  /** How many of the records are counted under `key`. */
  function Occurrences(levels: seq<Option<string>>, key: string): (n: nat)
    ensures n <= |levels|
  {
    if levels == [] then 0
    else Occurrences(levels[..|levels| - 1], key) + (if LevelKey(levels[|levels| - 1]) == key then 1 else 0)
  }

  /** The keys the records are counted under. */
  function KeysOf(levels: seq<Option<string>>): set<string> {
    if levels == [] then {} else KeysOf(levels[..|levels| - 1]) + {LevelKey(levels[|levels| - 1])}
  }

  /** A key appears in the breakdown exactly when some record is counted under it. */
  lemma {:induction false} KeysOfIff(levels: seq<Option<string>>, key: string)
    ensures key in KeysOf(levels) <==> Occurrences(levels, key) > 0
  {
    if levels != [] {
      KeysOfIff(levels[..|levels| - 1], key);
    }
  }

  /** `sum(1 for record in vitals_records if record.get('any_flag', False))` */
  function CountFlagged(anyFlags: seq<Option<bool>>): (n: nat)
    ensures n <= |anyFlags|
  {
    if anyFlags == [] then 0
    else CountFlagged(anyFlags[..|anyFlags| - 1]) + (if anyFlags[|anyFlags| - 1] == Some(true) then 1 else 0)
  }

  /** The sum of the counts of a breakdown. */
  ghost function Total(m: map<string, nat>): nat
    decreases |m.Keys|
  {
    if m == map[] then 0
    else
      var k :| k in m;
      m[k] + Total(m - {k})
  }

  /** Any key can be taken out of the sum first. */
  lemma {:induction false} TotalRemove(m: map<string, nat>, k: string)
    requires k in m
    ensures Total(m) == m[k] + Total(m - {k})
    decreases |m.Keys|
  {
    var j :| j in m && Total(m) == m[j] + Total(m - {j});
    if j != k {
      assert (m - {j}).Keys == m.Keys - {j};
      assert (m - {k}).Keys == m.Keys - {k};
      TotalRemove(m - {j}, k);
      TotalRemove(m - {k}, j);
      assert m - {j} - {k} == m - {k} - {j};
    }
  }

  /** After setting the count of `k` to `v`, the sum is `v` plus the sum of the other keys. */
  lemma TotalUpdate(m: map<string, nat>, k: string, v: nat)
    ensures Total(m[k := v]) == v + Total(m - {k})
  {
    TotalRemove(m[k := v], k);
    assert m[k := v] - {k} == m - {k};
  }

  /** `TriageStats` and `VitalsStats` of the response; `flag_percentage` and the timestamp are left out. */
  datatype Stats = Stats(
    totalAssessments: nat, levelsBreakdown: map<string, nat>,
    totalChecks: nat, flaggedCases: nat)

  /** `m` is the `triage_levels` dictionary built from `levels`. */
  ghost predicate Tallies(m: map<string, nat>, levels: seq<Option<string>>) {
    && m.Keys == KeysOf(levels)
    && (forall key :: key in m ==> m[key] == Occurrences(levels, key))
    && Total(m) == |levels|
  }

  /** `triage_levels[level] = triage_levels.get(level, 0) + 1` keeps the tally in step with one more record. */
  lemma TallyStep(m: map<string, nat>, levels: seq<Option<string>>, level: Option<string>)
    requires Tallies(m, levels)
    ensures var key := LevelKey(level);
            Tallies(m[key := (if key in m then m[key] else 0) + 1], levels + [level])
  {
    var key := LevelKey(level);
    var next := levels + [level];
    assert next[..|next| - 1] == levels;
    if key in m {
      TotalRemove(m, key);
    } else {
      assert m - {key} == m;
      KeysOfIff(levels, key);
    }
    TotalUpdate(m, key, (if key in m then m[key] else 0) + 1);
  }

  /** The loop of `get_triage_stats` over the triage records. */
  method CountLevels(levels: seq<Option<string>>) returns (triageLevels: map<string, nat>)
    ensures triageLevels.Keys == KeysOf(levels)
    ensures forall key :: key in triageLevels ==> triageLevels[key] == Occurrences(levels, key)
    ensures Total(triageLevels) == |levels|
  {
    triageLevels := map[];
    var i := 0;
    while i < |levels|
      invariant 0 <= i <= |levels|
      invariant Tallies(triageLevels, levels[..i])
    {
      var level := LevelKey(levels[i]);
      TallyStep(triageLevels, levels[..i], levels[i]);
      assert levels[..i] + [levels[i]] == levels[..i + 1];
      triageLevels := triageLevels[level := (if level in triageLevels then triageLevels[level] else 0) + 1];
      i := i + 1;
    }
    assert levels[..i] == levels;
  }

  /** The generator summed for `flagged_vitals`. */
  method CountFlaggedLoop(anyFlags: seq<Option<bool>>) returns (flagged: nat)
    ensures flagged == CountFlagged(anyFlags)
  {
    flagged := 0;
    var j := 0;
    while j < |anyFlags|
      invariant 0 <= j <= |anyFlags|
      invariant flagged == CountFlagged(anyFlags[..j])
    {
      assert anyFlags[..j + 1][..j] == anyFlags[..j];
      if anyFlags[j] == Some(true) {
        flagged := flagged + 1;
      }
      j := j + 1;
    }
    assert anyFlags[..j] == anyFlags;
  }

  /**
   * The counting of `get_triage_stats` over the fetched records, given as
   * their `triage_level` (`None` when the key is missing) and their
   * `any_flag` (`None` when missing, which counts as not flagged).
   */
  method ComputeStats(levels: seq<Option<string>>, anyFlags: seq<Option<bool>>) returns (s: Stats)
    ensures s.totalAssessments == |levels| && s.totalChecks == |anyFlags|
    ensures s.levelsBreakdown.Keys == KeysOf(levels)
    ensures forall key :: key in s.levelsBreakdown ==> s.levelsBreakdown[key] == Occurrences(levels, key)
    ensures Total(s.levelsBreakdown) == s.totalAssessments
    ensures s.flaggedCases == CountFlagged(anyFlags) <= s.totalChecks
  {
    var triageLevels := CountLevels(levels);
    var flagged := CountFlaggedLoop(anyFlags);
    s := Stats(|levels|, triageLevels, |anyFlags|, flagged);
  }

  /** Records lacking a `triage_level` are counted under "Unknown". */
  lemma MissingLevelCountedAsUnknown(levels: seq<Option<string>>, i: nat)
    requires i < |levels| && levels[i] == None
    ensures Occurrences(levels, "Unknown") > 0 && "Unknown" in KeysOf(levels)
    decreases |levels|
  {
    if i < |levels| - 1 {
      MissingLevelCountedAsUnknown(levels[..|levels| - 1], i);
    }
    KeysOfIff(levels, "Unknown");
  }

  /** The `triage_level` of each fetched triage record. */
  function LevelsOf(records: seq<Record<TriageRow>>): seq<Option<string>> {
    seq(|records|, i requires 0 <= i < |records| => Some(records[i].row.triageLevel))
  }

  /** The `any_flag` of each fetched vitals record. */
  function FlagsOf(records: seq<Record<VitalsRow>>): seq<Option<bool>> {
    seq(|records|, i requires 0 <= i < |records| => Some(records[i].row.anyFlag))
  }

  /** `get_triage_stats`: the statistics of the 100 newest records of each table. */
  method GetTriageStats(triageDb: Table<TriageRow>, vitalsDb: Table<VitalsRow>) returns (s: Stats)
    ensures s.totalAssessments == |triageDb.Recent(100)| <= 100
    ensures s.totalChecks == |vitalsDb.Recent(100)| <= 100
    ensures s.levelsBreakdown.Keys == KeysOf(LevelsOf(triageDb.Recent(100)))
    ensures forall key :: key in s.levelsBreakdown ==>
              s.levelsBreakdown[key] == Occurrences(LevelsOf(triageDb.Recent(100)), key)
    ensures Total(s.levelsBreakdown) == s.totalAssessments
    ensures s.flaggedCases == CountFlagged(FlagsOf(vitalsDb.Recent(100))) <= s.totalChecks
  {
    var triageRecords := triageDb.Recent(100);
    var vitalsRecords := vitalsDb.Recent(100);
    s := ComputeStats(LevelsOf(triageRecords), FlagsOf(vitalsRecords));
  }

  // ---------------------------------------------------------------------
  // The POST endpoints

  /** The answer of `POST /api/triage`; the timestamp and `confidence` are left out. */
  datatype TriageResponse =
    | TriageAnswer(triageLevel: string, recordId: Option<nat>, error: Option<string>)
    | TriageRefused(status: nat, reason: SymptomsError)

  /**
   * `create_triage`: validates the request, then runs `triage_patient` on
   * the stripped symptoms; a refused request leaves the store untouched.
   */
  method CreateTriage(
    db: Table<TriageRow>, symptoms: string, patientInfo: Option<PatientInfo>,
    useAi: bool, completion: Completion)
    returns (resp: TriageResponse)
    requires db.Valid()
    modifies db`rows
    ensures db.Valid()
    ensures ValidateSymptoms(symptoms).Failure? ==>
              db.rows == old(db.rows) &&
              resp == TriageRefused(ValidationStatus, ValidateSymptoms(symptoms).error)
    ensures ValidateSymptoms(symptoms).Success? ==>
              resp.TriageAnswer? &&
              resp.triageLevel == DecideLevel(ValidateSymptoms(symptoms).value, useAi, completion) &&
              (old(db.failing) <==> resp.error == Some(StoreError)) &&
              (old(db.failing) ==> db.rows == old(db.rows) && resp.recordId == None) &&
              (!old(db.failing) ==>
                 resp.recordId == Some(|old(db.rows)|) && resp.error == None &&
                 db.rows == old(db.rows) + [Record(|old(db.rows)|,
                   TriageRow(ValidateSymptoms(symptoms).value, resp.triageLevel, patientInfo.GetOr(map[]), useAi))])
  {
    var checked := ValidateSymptoms(symptoms);
    if checked.Failure? {
      resp := TriageRefused(ValidationStatus, checked.error);
    } else {
      var result := TriagePatient(db, checked.value, patientInfo, useAi, completion);
      resp := TriageAnswer(result.triageLevel, result.recordId, result.error);
    }
  }

  /** The answer of `POST /api/vitals`; the timestamp is left out. */
  datatype VitalsResponse =
    | VitalsAnswer(flags: VitalsFlags, recordId: Option<nat>, error: Option<string>)
    | VitalsRefused(status: nat, errors: seq<VitalsError>)

  /**
   * `check_vitals`: validates the request, then runs `flag_vitals`; a refused
   * request leaves the store untouched.
   */
  method CheckVitals(
    db: Table<VitalsRow>, pulse: int, systolicBP: int, diastolicBP: int,
    patientInfo: Option<PatientInfo>)
    returns (resp: VitalsResponse)
    requires db.Valid()
    modifies db`rows
    ensures db.Valid()
    ensures VitalsErrors(pulse, systolicBP, diastolicBP) != [] ==>
              db.rows == old(db.rows) &&
              resp == VitalsRefused(ValidationStatus, VitalsErrors(pulse, systolicBP, diastolicBP))
    ensures VitalsErrors(pulse, systolicBP, diastolicBP) == [] ==>
              resp.VitalsAnswer? &&
              resp.flags == EvaluateVitals(Vitals(pulse, systolicBP, diastolicBP)) &&
              (old(db.failing) <==> resp.error == Some(StoreError)) &&
              (old(db.failing) ==> db.rows == old(db.rows) && resp.recordId == None) &&
              (!old(db.failing) ==>
                 resp.recordId == Some(|old(db.rows)|) && resp.error == None &&
                 db.rows == old(db.rows) + [Record(|old(db.rows)|,
                   VitalsRow(pulse, systolicBP, diastolicBP, resp.flags.pulseFlag, resp.flags.systolicFlag,
                             resp.flags.diastolicFlag, resp.flags.anyFlag, patientInfo.GetOr(map[])))])
  {
    var checked := ValidateVitals(pulse, systolicBP, diastolicBP);
    if checked.Failure? {
      resp := VitalsRefused(ValidationStatus, checked.error);
    } else {
      var result := FlagVitals(db, checked.value, patientInfo);
      resp := VitalsAnswer(result.flags, result.recordId, result.error);
    }
  }
}
