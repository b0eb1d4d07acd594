/**
 * The severity classifier of the assessment endpoint: free-text symptoms and
 * conditions, an age and a duration are mapped to one of three urgency tiers,
 * first match wins (routes/chatbot.py, `RED_FLAGS` and `assess_severity`).
 */
module Triage {
  import opened Common
  import opened Strings
  import opened Web

  datatype Severity = Critical | Urgent | NonUrgent {

    /** The string stored in the assessment document. */
    function Name(): string {
      match this
      case Critical => "critical"
      case Urgent => "urgent"
      case NonUrgent => "non_urgent"
    }

    /** The order of the tiers, most serious highest. */
    function Rank(): nat {
      match this
      case Critical => 2
      case Urgent => 1
      case NonUrgent => 0
    }
  }

  /** Phrases that make an assessment critical wherever they occur. */
  const RedFlags: seq<string> := [
    "chest pain", "shortness of breath", "difficulty breathing", "fainting",
    "loss of consciousness", "slurred speech", "sudden weakness", "severe bleeding",
    "severe allergic reaction", "severe abdominal pain", "seizure"
  ]

  /** The text searched: `' '.join([str(symptoms), str(conditions)]).lower()`. */
  function SearchText(symptoms: string, conditions: string): string {
    Lower(symptoms + " " + conditions)
  }

  predicate HasRedFlag(text: string) {
    exists k | 0 <= k < |RedFlags| :: Contains(text, RedFlags[k])
  }

  /** `'fever' in text and (age and int(age) < 2 if str(age).isdigit() else False)`. */
  predicate FeverInInfant(age: Json, text: string) {
    && Contains(text, "fever")
    && age.StrIsDigits()
    && age.Truthy()
    && age.PyInt().Some?
    && age.PyInt().value < 2
  }

  /** `int(duration) >= 7`, where a failing `int` counts as false. */
  predicate LongDuration(duration: Json) {
    duration.PyInt().Some? && duration.PyInt().value >= 7
  }

  /** `assess_severity(age, symptoms, duration, allergies, conditions)`. */
  function AssessSeverity(age: Json, symptoms: string, duration: Json, allergies: string, conditions: string): Severity {
    var text := SearchText(symptoms, conditions);
    if HasRedFlag(text) then Critical
    else if FeverInInfant(age, text) then Urgent
    else if LongDuration(duration) then Urgent
    else NonUrgent
  }

  // ---------------------------------------------------------------- properties


  /** The tiers, stated as conditions on the inputs: critical exactly on a red flag;
      otherwise urgent exactly for a feverish infant or a duration of a week or more. */
  lemma SeverityTiers(age: Json, symptoms: string, duration: Json, allergies: string, conditions: string)
    ensures var r := AssessSeverity(age, symptoms, duration, allergies, conditions);
            var text := SearchText(symptoms, conditions);
            && (r == Critical <==> HasRedFlag(text))
            && (r == Urgent <==> !HasRedFlag(text) && (FeverInInfant(age, text) || LongDuration(duration)))
            && (r == NonUrgent <==> !HasRedFlag(text) && !FeverInInfant(age, text) && !LongDuration(duration))
  {
  }

  /** Allergies never influence the tier. */
  lemma AllergiesIgnored(age: Json, symptoms: string, duration: Json, a1: string, a2: string, conditions: string)
    ensures AssessSeverity(age, symptoms, duration, a1, conditions) == AssessSeverity(age, symptoms, duration, a2, conditions)
  {
  }

  /** A red-flag phrase anywhere in the symptoms, in any letter case, makes the assessment
      critical, whatever the age, duration, allergies and conditions. */
  lemma {:induction false} RedFlagInSymptomsIsCritical(k: nat, age: Json, symptoms: string, duration: Json, allergies: string, conditions: string)
    requires k < |RedFlags|
    requires Contains(Lower(symptoms), RedFlags[k])
    ensures AssessSeverity(age, symptoms, duration, allergies, conditions) == Critical
  {
    LowerAppend(symptoms, " " + conditions);
    assert symptoms + " " + conditions == symptoms + (" " + conditions);
    ContainsInLarger([], Lower(symptoms), Lower(" " + conditions), RedFlags[k]);
    assert [] + Lower(symptoms) + Lower(" " + conditions) == SearchText(symptoms, conditions);
  }

  /** The same for the conditions field. */
  lemma {:induction false} RedFlagInConditionsIsCritical(k: nat, age: Json, symptoms: string, duration: Json, allergies: string, conditions: string)
    requires k < |RedFlags|
    requires Contains(Lower(conditions), RedFlags[k])
    ensures AssessSeverity(age, symptoms, duration, allergies, conditions) == Critical
  {
    LowerAppend(symptoms + " ", conditions);
    ContainsInLarger(Lower(symptoms + " "), Lower(conditions), [], RedFlags[k]);
    assert Lower(symptoms + " ") + Lower(conditions) + [] == SearchText(symptoms, conditions);
  }

  /** Text that a patient adds before the symptoms, or after the conditions, can raise the
      tier but never lower it: every phrase found before is still found. */
  lemma {:induction false} MoreTextNeverLowersSeverity(age: Json, before: string, symptoms: string, duration: Json,
                                                      allergies: string, conditions: string, after: string)
    ensures AssessSeverity(age, before + symptoms, duration, allergies, conditions + after).Rank()
         >= AssessSeverity(age, symptoms, duration, allergies, conditions).Rank()
  {
    var text := SearchText(symptoms, conditions);
    var text' := SearchText(before + symptoms, conditions + after);
    assert before + symptoms + " " + (conditions + after) == before + (symptoms + " " + conditions) + after;
    LowerAppend(before + (symptoms + " " + conditions), after);
    LowerAppend(before, symptoms + " " + conditions);
    assert text' == Lower(before) + text + Lower(after);
    forall p | Contains(text, p) ensures Contains(text', p) {
      ContainsInLarger(Lower(before), text, Lower(after), p);
    }
    if HasRedFlag(text) {
      var k :| 0 <= k < |RedFlags| && Contains(text, RedFlags[k]);
      assert Contains(text', RedFlags[k]);
    }
  }

  /** A red flag may span the two fields: they are searched joined by one space. */
  lemma RedFlagAcrossFields()
    ensures AssessSeverity(JNull, "chest", JNull, "", "pain") == Critical
  {
    assert SearchText("chest", "pain") == "chest pain";
    ContainsSelf("chest pain");
    assert Contains(SearchText("chest", "pain"), RedFlags[0]);
  }

  /** No red flag fits in fewer than seven characters. */
  lemma NoRedFlagInShortText(text: string)
    requires |text| < 7
    ensures !HasRedFlag(text)
  {
    forall k | 0 <= k < |RedFlags| ensures !Contains(text, RedFlags[k]) {
      ContainsShort(text, RedFlags[k]);
    }
  }

  lemma SmallDurations()
    ensures JStr("0").PyInt() == Some(0)
    ensures JStr("2").PyInt() == Some(2)
    ensures JStr("3").PyInt() == Some(3)
    ensures JStr("10").PyInt() == Some(10)
  {
    assert IsDigits("0") && IsDigits("2") && IsDigits("3") && IsDigits("10");
    assert "10"[..1] == "1";
    assert "1"[..0] == "" && "0"[..0] == "" && "2"[..0] == "" && "3"[..0] == "";
  }

  lemma FeverFound()
    ensures SearchText("fever", "") == "fever "
    ensures Contains("fever ", "fever")
  {
    assert "fever "[..5] == "fever";
  }

  /** The fever test on the search text of a bare "fever": ages 1 and "0" count as infants,
      30 and the falsy 0 do not; the text has no red flag. */
  lemma FeverCases()
    ensures !HasRedFlag(SearchText("fever", ""))
    ensures FeverInInfant(JInt(1), SearchText("fever", "")) && FeverInInfant(JStr("0"), SearchText("fever", ""))
    ensures !FeverInInfant(JInt(30), SearchText("fever", "")) && !FeverInInfant(JInt(0), SearchText("fever", ""))
  {
    FeverFound();
    NoRedFlagInShortText(SearchText("fever", ""));
  }

  /** A fever at age 1 is urgent; at age 30 with a short duration it is not. */
  lemma FeverByAge()
    ensures AssessSeverity(JInt(1), "fever", JStr("2"), "", "") == Urgent
    ensures AssessSeverity(JInt(30), "fever", JStr("2"), "", "") == NonUrgent
  {
    FeverCases();
    SmallDurations();
  }

  /** Age 0 given as a number is falsy and does not make a fever urgent; the string "0" does. */
  lemma FeverAgeZero()
    ensures AssessSeverity(JInt(0), "fever", JNull, "", "") == NonUrgent
    ensures AssessSeverity(JStr("0"), "fever", JNull, "", "") == Urgent
  {
    FeverCases();
  }

  /** A cough of ten days is urgent, one of three days is not. */
  lemma CoughByDuration()
    ensures AssessSeverity(JNull, "cough", JStr("10"), "", "") == Urgent
    ensures AssessSeverity(JNull, "cough", JStr("3"), "", "") == NonUrgent
  {
    assert SearchText("cough", "") == "cough ";
    NoRedFlagInShortText("cough ");
    SmallDurations();
  }
}
