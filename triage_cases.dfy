/**
 * Concrete cases the repository's tests state, derived from the model of
 * the triage core. Each fact about a literal sentence (a letter it lacks,
 * a tail without capitals, a split into pieces) is proved on its own, and
 * the general lemmas then work on abstract strings equal to it.
 */
module TriageCases {
  import opened Wrappers
  import opened PyStr
  import opened TriageCore

  predicate NoUpper(s: string) {
    forall i :: 0 <= i < |s| ==> !IsUpper(s[i])
  }

  /** A sentence that opens with a capital and has none after it lower-cases its first letter only. */
  lemma LowerWithCapital(c: char, rest: string)
    requires NoUpper(rest)
    ensures Lower([c] + rest) == [LowerChar(c)] + rest
  {
    LowerOfLowerCase(rest);
    LowerConcat([c], rest);
  }

  // ---------------------------------------------------------------------
  // The keyword classifier

  /** A text whose lower-case form holds "seizure" is Critical. */
  lemma CriticalWhenSeizure(s: string, before: string, after: string)
    requires Lower(s) == before + "seizure" + after
    ensures RuleBasedTriage(s) == Critical
  {
    ContainsInMiddle(before, "seizure", after);
    assert Critical.Keywords()[0] == "seizure";
  }

  /** A text whose lower-case form holds "headache" and no Critical or Urgent keyword is Moderate. */
  lemma ModerateWhenHeadache(s: string, before: string, after: string)
    requires Lower(s) == before + "headache" + after
    requires !MatchesGroup(Critical, Lower(s)) && !MatchesGroup(Urgent, Lower(s))
    ensures RuleBasedTriage(s) == Moderate
  {
    ContainsInMiddle(before, "headache", after);
    assert Moderate.Keywords()[0] == "headache";
  }

  /** Without the letters z, l and o no Critical keyword occurs. */
  lemma NoCriticalKeyword(t: string)
    requires 'z' !in t && 'l' !in t && 'o' !in t
    ensures !MatchesGroup(Critical, t)
  {
    NotContainsMissingChar(t, "seizure", 'z');
    NotContainsMissingChar(t, "loss of consciousness", 'l');
    NotContainsMissingChar(t, "coma", 'o');
  }

  /** Without the letters o, b and l no Urgent keyword occurs. */
  lemma NoUrgentKeyword(t: string)
    requires 'o' !in t && 'b' !in t && 'l' !in t
    ensures !MatchesGroup(Urgent, t)
  {
    NotContainsMissingChar(t, "vomiting", 'o');
    NotContainsMissingChar(t, "blurred vision", 'b');
    NotContainsMissingChar(t, "slurred speech", 'l');
  }

  lemma SeizureSentence(rest: string)
    requires rest == "atient experiencing seizure and vomiting"
    ensures NoUpper(rest)
    ensures ['P'] + rest == "Patient experiencing seizure and vomiting"
  {
  }

  lemma SeizureSentenceSplit(rest: string)
    requires rest == "atient experiencing seizure and vomiting"
    ensures ['p'] + rest == "patient experiencing " + "seizure" + " and vomiting"
  {
  }

  /** "seizure" outranks "vomiting". */
  lemma SeizureAndVomitingIsCritical()
    ensures RuleBasedTriage("Patient experiencing seizure and vomiting") == Critical
  {
    var rest := "atient experiencing seizure and vomiting";
    SeizureSentence(rest);
    SeizureSentenceSplit(rest);
    LowerWithCapital('P', rest);
    CriticalWhenSeizure(['P'] + rest, "patient experiencing ", " and vomiting");
  }

  lemma HeadacheSentence(rest: string)
    requires rest == "atient has headache and tiredness"
    ensures NoUpper(rest)
    ensures ['P'] + rest == "Patient has headache and tiredness"
  {
  }

  lemma HeadacheSentenceSplit(rest: string)
    requires rest == "atient has headache and tiredness"
    ensures ['p'] + rest == "patient has " + "headache" + " and tiredness"
  {
  }

  lemma HeadacheSentenceLacksZL(t: string)
    requires t == "patient has headache and tiredness"
    ensures 'z' !in t && 'l' !in t
  {
  }

  lemma HeadacheSentenceLacksOB(t: string)
    requires t == "patient has headache and tiredness"
    ensures 'o' !in t && 'b' !in t
  {
  }

  /** "headache" is reached before "tiredness" is considered. */
  lemma HeadacheAndTirednessIsModerate()
    ensures RuleBasedTriage("Patient has headache and tiredness") == Moderate
  {
    var rest := "atient has headache and tiredness";
    HeadacheSentence(rest);
    HeadacheSentenceSplit(rest);
    LowerWithCapital('P', rest);
    var t := ['p'] + rest;
    assert t == "patient has headache and tiredness";
    HeadacheSentenceLacksZL(t);
    HeadacheSentenceLacksOB(t);
    NoCriticalKeyword(t);
    NoUrgentKeyword(t);
    ModerateWhenHeadache(['P'] + rest, "patient has ", " and tiredness");
  }

  // ---------------------------------------------------------------------
  // Vital signs

  /** A low pulse alone raises the pulse flag and the overall flag. */
  lemma LowPulseFlagsOnlyPulse()
    ensures EvaluateVitals(Vitals(55, 120, 80)) == VitalsFlags(true, false, false, true)
  {
  }

  lemma NormalVitalsRaiseNoFlag()
    ensures EvaluateVitals(Vitals(85, 120, 80)) == VitalsFlags(false, false, false, false)
  {
  }

  lemma HighVitalsRaiseEveryFlag()
    ensures EvaluateVitals(Vitals(120, 180, 110)) == VitalsFlags(true, true, true, true)
  {
  }

  // ---------------------------------------------------------------------
  // The language model's reply

  /** A reply of one line without surrounding whitespace is scanned as that single line. */
  lemma OneLineReply(c: string)
    requires c != [] && !IsSpace(c[0]) && !IsSpace(c[|c| - 1]) && '\n' !in c
    ensures Strip(c) == c && ReplyLines(c) == [c]
  {
    StripNoPadding(c);
    SplitNoSep(c, '\n');
  }

  /** A reply of two lines and a trailing newline is scanned as those two lines. */
  lemma TwoLineReply(a: string, b: string)
    requires a != [] && b != [] && !IsSpace(a[0]) && !IsSpace(b[|b| - 1])
    requires '\n' !in a && '\n' !in b
    ensures Strip(a + "\n" + b + "\n") == a + "\n" + b
    ensures ReplyLines(a + "\n" + b + "\n") == [a, b]
  {
    var r := a + "\n" + b;
    var c := r + "\n";
    assert c[..|c| - 1] == r;
    assert StripEnd(r) == |r|;
    assert StripEnd(c) == |r|;
    assert StripStart(c) == 0;
    assert c[0..|r|] == r;
    SplitAfterSep(a, b, '\n');
    SplitNoSep(b, '\n');
  }

  /** What `triage_patient` does with a normalised model answer. */
  lemma AnswerIsLabel(symptoms: string, c: string, answer: string)
    requires NormaliseReply(c) == Success(answer)
    ensures DecideLevel(symptoms, true, Reply(c)) == answer
  {
  }

  lemma CriticalWord(c: string)
    requires c == "Critical"
    ensures c == ['C'] + "ritical" && NoUpper("ritical")
    ensures Capitalize("critical") == c
  {
    assert "critical" == ['c'] + "ritical";
    LowerOfLowerCase("ritical");
  }

  lemma CriticalReply(c: string)
    requires c == "Critical"
    ensures NormaliseReply(c) == Success("Critical")
  {
    CriticalWord(c);
    OneLineReply(c);
    LowerWithCapital('C', "ritical");
    assert Clean(c) == ['c'] + "ritical";
    assert ['c'] + "ritical" == "critical";
    NormaliseReplyLastLevel(c, 0);
  }

  /** A one-word reply naming a level becomes that level's label. */
  lemma ReplyCriticalIsCritical(symptoms: string)
    ensures DecideLevel(symptoms, true, Reply("Critical")) == "Critical"
  {
    CriticalReply("Critical");
    AnswerIsLabel(symptoms, "Critical", "Critical");
  }

  lemma LowWord(b: string)
    requires b == "Low"
    ensures b == ['L'] + "ow" && NoUpper("ow")
    ensures Capitalize("low") == b
  {
    assert "low" == ['l'] + "ow";
    LowerOfLowerCase("ow");
  }

  lemma ReasoningReplyShape(a: string, b: string, c: string)
    requires a == "Possibly urgent" && b == "Low" && c == "Possibly urgent\nLow\n"
    ensures c == a + "\n" + b + "\n"
    ensures a != [] && b != [] && !IsSpace(a[0]) && !IsSpace(b[|b| - 1])
    ensures '\n' !in a && '\n' !in b
  {
  }

  lemma ReasoningReply(c: string)
    requires c == "Possibly urgent\nLow\n"
    ensures NormaliseReply(c) == Success("Low")
  {
    var a, b := "Possibly urgent", "Low";
    ReasoningReplyShape(a, b, c);
    TwoLineReply(a, b);
    LowWord(b);
    OneLineReply(b);
    LowerWithCapital('L', "ow");
    assert Clean(b) == ['l'] + "ow";
    assert ['l'] + "ow" == "low";
    NormaliseReplyLastLevel(c, 1);
  }

  /** Reasoning before the answer is skipped: the last line naming a level wins. */
  lemma ReplyReasoningThenLevel(symptoms: string)
    ensures DecideLevel(symptoms, true, Reply("Possibly urgent\nLow\n")) == "Low"
  {
    ReasoningReply("Possibly urgent\nLow\n");
    AnswerIsLabel(symptoms, "Possibly urgent\nLow\n", "Low");
  }

  lemma PunctuatedWord(c: string)
    requires c == "Critical."
    ensures c == ['C'] + "ritical." && NoUpper("ritical.")
    ensures Capitalize("critical.") == c
    ensures !IsLevelWord("critical.") && !IsLevelName(c)
  {
    assert "critical." == ['c'] + "ritical.";
    LowerOfLowerCase("ritical.");
  }

  lemma PunctuatedReply(c: string)
    requires c == "Critical."
    ensures NormaliseReply(c) == Success("Critical.")
    ensures !IsLevelName("Critical.")
  {
    PunctuatedWord(c);
    OneLineReply(c);
    LowerWithCapital('C', "ritical.");
    assert Clean(c) == ['c'] + "ritical.";
    assert ['c'] + "ritical." == "critical.";
    assert !IsLevelLine(c);
    NormaliseReplyNoLevel(c);
  }

  /** A reply with punctuation passes through as a label that is not a level name. */
  lemma ReplyWithPunctuationLeaks(symptoms: string)
    ensures DecideLevel(symptoms, true, Reply("Critical.")) == "Critical."
    ensures !IsLevelName(DecideLevel(symptoms, true, Reply("Critical.")))
  {
    PunctuatedReply("Critical.");
    AnswerIsLabel(symptoms, "Critical.", "Critical.");
  }
}
