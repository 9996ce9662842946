/**
 * The triage decision logic: the keyword classifier, the vitals flagger,
 * the normaliser of the language model's reply, and the orchestrator that
 * picks a label, falls back to the rules, and stores the assessment.
 */
module TriageCore {
  import opened Wrappers
  import opened PyStr
  import opened Store

  // ---------------------------------------------------------------------
  // Urgency levels and the keyword classifier

  datatype Level = Critical | Urgent | Moderate | Low {
    /** The label the system reports, e.g. "Critical". */
    function Name(): string {
      match this
      case Critical => "Critical"
      case Urgent => "Urgent"
      case Moderate => "Moderate"
      case Low => "Low"
    }

    /** The lower-case word the reply normaliser accepts, e.g. "critical". */
    function Word(): string {
      match this
      case Critical => "critical"
      case Urgent => "urgent"
      case Moderate => "moderate"
      case Low => "low"
    }

    /** Position in the classifier's priority order; 0 is scanned first. */
    function Rank(): nat {
      match this
      case Critical => 0
      case Urgent => 1
      case Moderate => 2
      case Low => 3
    }

    function Keywords(): seq<string> {
      match this
      case Critical => ["seizure", "loss of consciousness", "coma"]
      case Urgent => ["vomiting", "blurred vision", "slurred speech"]
      case Moderate => ["headache", "neck pain"]
      case Low => ["dizziness", "mild pain", "tiredness"]
    }
  }

  /** The four labels a level can carry. */
  predicate IsLevelName(name: string) {
    name == "Critical" || name == "Urgent" || name == "Moderate" || name == "Low"
  }

  /** The groups of the classifier, in the order they are scanned. */
  const Priority: seq<Level> := [Critical, Urgent, Moderate, Low]

  /** Some keyword of `level` is a substring of the (already lower-cased) `text`. */
  predicate MatchesGroup(level: Level, text: string) {
    exists k :: 0 <= k < |level.Keywords()| && Contains(text, level.Keywords()[k])
  }

  /** The symptom description mentions a keyword of `level`, ignoring case. */
  predicate Mentions(symptoms: string, level: Level) {
    MatchesGroup(level, Lower(symptoms))
  }

  /** The index of the first group in `groups` that matches `text`. */
  function FirstMatch(groups: seq<Level>, text: string): (r: Option<nat>)
    ensures r.Some? ==> r.value < |groups| && MatchesGroup(groups[r.value], text)
    ensures r.Some? ==> forall j :: 0 <= j < r.value ==> !MatchesGroup(groups[j], text)
    ensures r.None? ==> forall j :: 0 <= j < |groups| ==> !MatchesGroup(groups[j], text)
  {
    if groups == [] then None
    else if MatchesGroup(groups[0], text) then Some(0)
    else match FirstMatch(groups[1..], text)
      case None => None
      case Some(i) => Some(i + 1)
  }

  /**
   * `rule_based_triage`: the first group, in priority order, with a keyword
   * in the lower-cased text; Moderate when no keyword occurs.
   */
  function RuleBasedTriage(symptoms: string): (level: Level)
    ensures level == Critical <==> Mentions(symptoms, Critical)
    ensures level == Urgent <==> !Mentions(symptoms, Critical) && Mentions(symptoms, Urgent)
    ensures level == Moderate <==>
              !Mentions(symptoms, Critical) && !Mentions(symptoms, Urgent) &&
              (Mentions(symptoms, Moderate) || !Mentions(symptoms, Low))
    ensures level == Low <==>
              !Mentions(symptoms, Critical) && !Mentions(symptoms, Urgent) &&
              !Mentions(symptoms, Moderate) && Mentions(symptoms, Low)
  {
    assert Priority[0] == Critical && Priority[1] == Urgent;
    assert Priority[2] == Moderate && Priority[3] == Low;
    match FirstMatch(Priority, Lower(symptoms))
    case Some(i) => Priority[i]
    case None => Moderate
  }

  /** A level is returned only when no group scanned before it matches. */
  lemma RuleBasedTriageHighestWins(symptoms: string, higher: Level)
    requires higher.Rank() < RuleBasedTriage(symptoms).Rank()
    ensures !Mentions(symptoms, higher)
  {
  }

  /** The classifier ignores case. */
  lemma RuleBasedTriageIgnoresCase(symptoms: string)
    ensures RuleBasedTriage(Lower(symptoms)) == RuleBasedTriage(symptoms)
  {
    LowerIdempotent(symptoms);
  }

  /** The label the classifier reports is one of the four level names. */
  lemma LevelNameIsLevel(level: Level)
    ensures IsLevelName(level.Name())
  {
  }

  // ---------------------------------------------------------------------
  // Vitals

  datatype Vitals = Vitals(pulse: int, systolicBP: int, diastolicBP: int)

  datatype VitalsFlags = VitalsFlags(
    pulseFlag: bool, systolicFlag: bool, diastolicFlag: bool, anyFlag: bool)

  /** `lo <= x <= hi` */
  predicate Within(x: int, lo: int, hi: int) { lo <= x <= hi }

  /** The flag computation of `flag_vitals`: a reading outside its normal closed range is flagged. */
  function EvaluateVitals(v: Vitals): (f: VitalsFlags)
    ensures f.pulseFlag <==> !Within(v.pulse, 60, 100)
    ensures f.systolicFlag <==> !Within(v.systolicBP, 90, 160)
    ensures f.diastolicFlag <==> !Within(v.diastolicBP, 60, 100)
    ensures f.anyFlag <==> f.pulseFlag || f.systolicFlag || f.diastolicFlag
  {
    var pulseFlag := v.pulse < 60 || v.pulse > 100;
    var systolicFlag := v.systolicBP < 90 || v.systolicBP > 160;
    var diastolicFlag := v.diastolicBP < 60 || v.diastolicBP > 100;
    VitalsFlags(pulseFlag, systolicFlag, diastolicFlag, pulseFlag || systolicFlag || diastolicFlag)
  }

  /** No flag is raised exactly when every reading is within its normal range. */
  lemma VitalsNormalIff(v: Vitals)
    ensures !EvaluateVitals(v).anyFlag <==>
              Within(v.pulse, 60, 100) && Within(v.systolicBP, 90, 160) &&
              Within(v.diastolicBP, 60, 100)
  {
  }

  // ---------------------------------------------------------------------
  // The language model's reply

  /** What the completion service gave back for one request. */
  datatype Completion = ServiceFailure | Reply(content: string)

  /** Why `call_groq` raised. */
  datatype AiError = ServiceError | EmptyReply

  /** A line as the normaliser compares it: `line.strip().lower()`. */
  function Clean(line: string): string {
    Lower(Strip(line))
  }

  /** `line_clean in valid_levels` */
  predicate IsLevelWord(w: string) {
    w == "critical" || w == "urgent" || w == "moderate" || w == "low"
  }

  /** The line, stripped and lower-cased, is one of the level words. */
  predicate IsLevelLine(line: string) {
    IsLevelWord(Clean(line))
  }

  /** The line holds only whitespace. */
  predicate IsBlank(line: string) {
    Strip(line) == []
  }

  /** `for line in reversed(lines): if test(line): return ...`: index of the last line passing `test`. */
  function LastWhere(lines: seq<string>, test: string -> bool): (r: Option<nat>)
    ensures r.Some? ==> r.value < |lines| && test(lines[r.value])
    ensures r.Some? ==> forall j :: r.value < j < |lines| ==> !test(lines[j])
    ensures r.None? ==> forall j :: 0 <= j < |lines| ==> !test(lines[j])
  {
    if lines == [] then None
    else if test(lines[|lines| - 1]) then Some(|lines| - 1)
    else LastWhere(lines[..|lines| - 1], test)
  }

  /** `line.strip()` is truthy. */
  predicate IsNonBlank(line: string) {
    !IsBlank(line)
  }

  /**
   * The reply parsing of `call_groq`: the capitalised last line naming a
   * level, else the capitalised last non-blank line, else the capitalised
   * reply; an empty reply is an error.
   */
  function NormaliseReply(content: string): (r: Result<string, AiError>)
    ensures r.Failure? <==> Strip(content) == []
    ensures r.Failure? ==> r.error == EmptyReply
    ensures r.Success? ==> r.value != []
  {
    var result := Strip(content);
    if result == [] then Failure(EmptyReply)
    else
      var lines := Split(result, '\n');
      match LastWhere(lines, IsLevelLine)
      case Some(i) => Success(Capitalize(Clean(lines[i])))
      case None =>
        match LastWhere(lines, IsNonBlank)
        case Some(i) => Success(Capitalize(Clean(lines[i])))
        case None => Success(Capitalize(result))
  }

  /** `call_groq` with the completion service's answer given. */
  function CallGroq(completion: Completion): (r: Result<string, AiError>)
    ensures completion.ServiceFailure? ==> r == Failure(ServiceError)
  {
    match completion
    case ServiceFailure => Failure(ServiceError)
    case Reply(content) => NormaliseReply(content)
  }

  /** Capitalising a level word gives that level's label, which lower-cases back to the word. */
  lemma CapitalizeLevelWord(w: string)
    requires IsLevelWord(w)
    ensures IsLevelName(Capitalize(w)) && Lower(Capitalize(w)) == w
  {
    var level :=
      if w == "critical" then Critical else if w == "urgent" then Urgent
      else if w == "moderate" then Moderate else Low;
    assert w == level.Word();
    LowerOfLowerCase(w[1..]);
    assert Capitalize(w) == [UpperChar(w[0])] + w[1..];
    assert Capitalize(w) == level.Name();
    LowerOfLowerCase(w);
    assert Lower(level.Name()) == [LowerChar(level.Name()[0])] + Lower(level.Name()[1..]);
  }

  /** The lines the normaliser scans: `result.split('\n')` of the stripped reply. */
  function ReplyLines(content: string): seq<string> {
    Split(Strip(content), '\n')
  }

  /** When some line names a level, the result is the label of the last such line. */
  lemma NormaliseReplyLastLevel(content: string, j: nat)
    requires Strip(content) != []
    requires j < |ReplyLines(content)| && IsLevelLine(ReplyLines(content)[j])
    requires forall k :: j < k < |ReplyLines(content)| ==> !IsLevelLine(ReplyLines(content)[k])
    ensures NormaliseReply(content) == Success(Capitalize(Clean(ReplyLines(content)[j])))
    ensures IsLevelName(NormaliseReply(content).value)
  {
    var lines := ReplyLines(content);
    var r := LastWhere(lines, IsLevelLine);
    assert r == Some(j);
    CapitalizeLevelWord(Clean(lines[j]));
  }

  /**
   * Without a level line the result is the last non-blank line, cleaned and
   * capitalised; the final fallback of `call_groq` is never reached.
   */
  lemma {:induction false} NormaliseReplyNoLevel(content: string)
    requires Strip(content) != []
    requires forall i :: 0 <= i < |ReplyLines(content)| ==> !IsLevelLine(ReplyLines(content)[i])
    ensures LastWhere(ReplyLines(content), IsNonBlank).Some?
    ensures NormaliseReply(content) ==
              Success(Capitalize(Clean(ReplyLines(content)[LastWhere(ReplyLines(content), IsNonBlank).value])))
  {
    var result := Strip(content);
    var lines := Split(result, '\n');
    assert result[0] != '\n';
    SplitFirstChar(result, '\n');
    StripNonEmpty(lines[0], 0);
  }

  /** A line that cleans to a level word is that word up to case and surrounding spaces. */
  lemma LevelLineIsWord(line: string)
    requires IsLevelLine(line)
    ensures IsLevelName(Capitalize(Clean(line)))
  {
    CapitalizeLevelWord(Clean(line));
  }

  // ---------------------------------------------------------------------
  // Orchestration

  /** A row of the `triage` table. */
  datatype TriageRow = TriageRow(
    symptoms: string, triageLevel: string, patientInfo: PatientInfo, useAi: bool)

  /** A row of the `vitals` table. */
  datatype VitalsRow = VitalsRow(
    pulse: int, systolicBP: int, diastolicBP: int,
    pulseFlag: bool, systolicFlag: bool, diastolicFlag: bool, anyFlag: bool,
    patientInfo: PatientInfo)

  const StoreError: string := "Failed to store in database"

  /** What `triage_patient` returns; the timestamp is left out. */
  datatype TriageResult = TriageResult(
    triageLevel: string, recordId: Option<nat>, data: Option<Record<TriageRow>>,
    error: Option<string>)

  /** What `flag_vitals` returns; the timestamp is left out. */
  datatype VitalsResult = VitalsResult(
    flags: VitalsFlags, recordId: Option<nat>, data: Option<Record<VitalsRow>>,
    error: Option<string>)

  /** The label `triage_patient` settles on: the model's answer, or the rules when not asked for or when the model fails. */
  function DecideLevel(symptoms: string, useAi: bool, completion: Completion): (name: string)
    ensures IsLevelName(name) || (useAi && CallGroq(completion) == Success(name))
  {
    if useAi then
      match CallGroq(completion)
      case Success(answer) => answer
      case Failure(_) => RuleBasedTriage(symptoms).Name()
    else RuleBasedTriage(symptoms).Name()
  }

  /** Without the model, the label is the rule-based one. */
  lemma RulePathWithoutAi(symptoms: string, completion: Completion)
    ensures DecideLevel(symptoms, false, completion) == RuleBasedTriage(symptoms).Name()
  {
  }

  /** When the model fails, the label silently falls back to the rule-based one. */
  lemma FallbackOnAiFailure(symptoms: string, completion: Completion)
    requires CallGroq(completion).Failure?
    ensures DecideLevel(symptoms, true, completion) == RuleBasedTriage(symptoms).Name()
    ensures IsLevelName(DecideLevel(symptoms, true, completion))
  {
  }

  /**
   * The label is one of the four level names unless the model answered with
   * a reply none of whose lines names a level.
   */
  lemma DecidedLabelIsLevel(symptoms: string, useAi: bool, completion: Completion)
    requires !useAi || completion.ServiceFailure? || Strip(completion.content) == [] ||
             LastWhere(ReplyLines(completion.content), IsLevelLine).Some?
    ensures IsLevelName(DecideLevel(symptoms, useAi, completion))
  {
    if useAi && completion.Reply? && Strip(completion.content) != [] {
      var j := LastWhere(ReplyLines(completion.content), IsLevelLine).value;
      NormaliseReplyLastLevel(completion.content, j);
    }
  }

  /**
   * `triage_patient`: decides the label, then stores the row. A store failure
   * still returns the label, without a record and with an error message.
   */
  method TriagePatient(
    db: Table<TriageRow>, symptoms: string, patientInfo: Option<PatientInfo>,
    useAi: bool, completion: Completion)
    returns (res: TriageResult)
    requires db.Valid()
    modifies db`rows
    ensures db.Valid()
    ensures res.triageLevel == DecideLevel(symptoms, useAi, completion)
    ensures old(db.failing) ==>
              db.rows == old(db.rows) &&
              res == TriageResult(res.triageLevel, None, None, Some(StoreError))
    ensures !old(db.failing) ==>
              var rec := Record(|old(db.rows)|, TriageRow(symptoms, res.triageLevel, patientInfo.GetOr(map[]), useAi));
              db.rows == old(db.rows) + [rec] &&
              res == TriageResult(res.triageLevel, Some(rec.id), Some(rec), None) &&
              db.Recent(1) == [rec]
  {
    var info: PatientInfo := map[];
    if patientInfo.Some? {
      info := patientInfo.value;
    }
    var triageLevel := "";
    if useAi {
      var ai := CallGroq(completion);
      if ai.Success? {
        triageLevel := ai.value;
      } else {
        triageLevel := RuleBasedTriage(symptoms).Name();
      }
    } else {
      triageLevel := RuleBasedTriage(symptoms).Name();
    }
    var stored := db.Insert(TriageRow(symptoms, triageLevel, info, useAi));
    if stored.Some? {
      res := TriageResult(triageLevel, Some(stored.value.id), Some(stored.value), None);
    } else {
      res := TriageResult(triageLevel, None, None, Some(StoreError));
    }
  }

  /**
   * `flag_vitals`: computes the flags, then stores the reading. The flags are
   * the same whether or not the store succeeds.
   */
  method FlagVitals(db: Table<VitalsRow>, vitals: Vitals, patientInfo: Option<PatientInfo>)
    returns (res: VitalsResult)
    requires db.Valid()
    modifies db`rows
    ensures db.Valid()
    ensures res.flags == EvaluateVitals(vitals)
    ensures old(db.failing) ==>
              db.rows == old(db.rows) &&
              res == VitalsResult(res.flags, None, None, Some(StoreError))
    ensures !old(db.failing) ==>
              var f := res.flags;
              var rec := Record(|old(db.rows)|, VitalsRow(
                vitals.pulse, vitals.systolicBP, vitals.diastolicBP,
                f.pulseFlag, f.systolicFlag, f.diastolicFlag, f.anyFlag,
                patientInfo.GetOr(map[])));
              db.rows == old(db.rows) + [rec] &&
              res == VitalsResult(f, Some(rec.id), Some(rec), None) &&
              db.Recent(1) == [rec]
  {
    var info: PatientInfo := map[];
    if patientInfo.Some? {
      info := patientInfo.value;
    }
    var pulseFlag := vitals.pulse < 60 || vitals.pulse > 100;
    var systolicFlag := vitals.systolicBP < 90 || vitals.systolicBP > 160;
    var diastolicFlag := vitals.diastolicBP < 60 || vitals.diastolicBP > 100;
    var anyFlag := pulseFlag || systolicFlag || diastolicFlag;
    var flags := VitalsFlags(pulseFlag, systolicFlag, diastolicFlag, anyFlag);
    var stored := db.Insert(VitalsRow(
      vitals.pulse, vitals.systolicBP, vitals.diastolicBP,
      pulseFlag, systolicFlag, diastolicFlag, anyFlag, info));
    if stored.Some? {
      res := VitalsResult(flags, Some(stored.value.id), Some(stored.value), None);
    } else {
      res := VitalsResult(flags, None, None, Some(StoreError));
    }
  }
}
