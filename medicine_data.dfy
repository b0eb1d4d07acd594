/**
 * The static medicine knowledge base of the assistant (routes/chatbot.py,
 * `MEDICINE_DATABASE` and `MEDICATION_WHITELIST`): twenty records keyed by a
 * lower-case medicine name.
 */
module MedicineData {
  import opened Common
  import opened Strings

  datatype Medicine = Medicine(
    uses: seq<string>,
    dosage: string,
    maxDaily: string,
    sideEffects: seq<string>,
    precautions: seq<string>,
    category: string)

  /** The twenty records in the order the dictionary literal lists them. */
  const Database: seq<(string, Medicine)> := [
    ("paracetamol", Medicine(["fever", "headache", "body ache", "pain"], "500-1000 mg every 4-6 hours",
      "3000-4000 mg", ["nausea", "headache"], ["liver disease", "alcohol use"], "pain_relief")),
    ("acetaminophen", Medicine(["fever", "headache", "body ache", "pain"], "500-1000 mg every 4-6 hours",
      "3000-4000 mg", ["nausea", "headache"], ["liver disease", "alcohol use"], "pain_relief")),
    ("ibuprofen", Medicine(["fever", "headache", "body ache", "pain", "inflammation", "joint pain"],
      "200-400 mg every 4-6 hours", "1200-1600 mg", ["nausea", "stomach upset", "dizziness"],
      ["stomach ulcers", "kidney disease", "heart disease"], "pain_relief")),
    ("aspirin", Medicine(["headache", "pain", "fever"], "325-650 mg every 4-6 hours", "3000-4000 mg",
      ["stomach upset", "nausea"], ["bleeding disorders", "asthma", "stomach ulcers"], "pain_relief")),
    ("dextromethorphan", Medicine(["dry cough", "persistent cough"], "10-20 mg every 4 hours", "120 mg",
      ["dizziness", "drowsiness"], ["asthma", "pregnancy"], "cough")),
    ("guaifenesin", Medicine(["cough with mucus", "phlegm", "wet cough"], "200-400 mg every 4 hours", "2400 mg",
      ["nausea", "vomiting"], ["kidney disease"], "cough")),
    ("pseudoephedrine", Medicine(["nasal congestion", "stuffy nose", "sinus congestion"], "30-60 mg every 4-6 hours",
      "240 mg", ["insomnia", "nervousness", "headache"], ["heart disease", "high blood pressure", "diabetes"],
      "decongestant")),
    ("phenylephrine", Medicine(["nasal congestion", "stuffy nose"], "10 mg every 4 hours", "60 mg",
      ["nervousness", "insomnia"], ["heart disease", "high blood pressure"], "decongestant")),
    ("cetirizine", Medicine(["allergies", "itching", "hives", "runny nose", "sneezing"], "5-10 mg once daily", "10 mg",
      ["drowsiness", "headache"], ["kidney disease"], "antihistamine")),
    ("loratadine", Medicine(["allergies", "itching", "hives", "runny nose"], "10 mg once daily", "10 mg",
      ["headache", "drowsiness"], ["kidney disease", "liver disease"], "antihistamine")),
    ("diphenhydramine", Medicine(["allergies", "itching", "hives", "sleep"], "25-50 mg every 4-6 hours", "300 mg",
      ["drowsiness", "dizziness"], ["driving", "pregnancy"], "antihistamine")),
    ("saline nasal spray", Medicine(["nasal congestion", "stuffy nose", "post-nasal drip"], "spray as needed",
      "unlimited", [], [], "topical")),
    ("honey", Medicine(["cough", "sore throat", "throat irritation"], "1-2 teaspoons", "as needed", [],
      ["infants under 1 year"], "natural")),
    ("menthol", Medicine(["cough", "congestion", "muscle ache"], "topical as needed", "as needed", [],
      ["sensitive skin"], "topical")),
    ("levothyroxine", Medicine(["hypothyroidism", "thyroid"], "varies (typically 25-200 mcg daily)", "varies",
      ["tremor", "anxiety", "headache"], ["heart disease", "pregnancy"], "prescription")),
    ("atorvastatin", Medicine(["high cholesterol", "heart disease prevention"], "10-80 mg daily", "80 mg",
      ["muscle pain", "weakness"], ["liver disease", "pregnancy"], "prescription")),
    ("omeprazole", Medicine(["acid reflux", "heartburn", "GERD", "stomach ulcer"], "20-40 mg daily", "40 mg",
      ["headache", "nausea", "abdominal pain"], ["long-term use risks", "magnesium deficiency"], "prescription")),
    ("albuterol", Medicine(["asthma", "shortness of breath", "breathing"], "1-2 puffs every 4-6 hours as needed",
      "varies", ["tremor", "nervousness", "headache"], ["heart conditions"], "prescription")),
    ("amoxicillin", Medicine(["bacterial infection", "strep throat", "ear infection"], "250-500 mg every 8 hours",
      "3000 mg", ["nausea", "vomiting", "rash"], ["penicillin allergy"], "prescription")),
    ("lisinopril", Medicine(["high blood pressure", "hypertension", "heart failure"], "10-40 mg daily", "80 mg",
      ["dizziness", "headache", "dry cough"], ["kidney disease", "pregnancy"], "prescription"))
  ]

  /** The keys of `Database`, in the same order; `NamesAreKeys` ties the two together. */
  const Names: seq<string> := [
    "paracetamol", "acetaminophen", "ibuprofen", "aspirin", "dextromethorphan", "guaifenesin",
    "pseudoephedrine", "phenylephrine", "cetirizine", "loratadine", "diphenhydramine",
    "saline nasal spray", "honey", "menthol", "levothyroxine", "atorvastatin", "omeprazole",
    "albuterol", "amoxicillin", "lisinopril"
  ]

  lemma NamesAreKeys()
    ensures |Names| == |Database|
    ensures forall k | 0 <= k < |Database| :: Database[k].0 == Names[k]
  {
  }

  /** `MEDICATION_WHITELIST = set(MEDICINE_DATABASE.keys())`. */
  function Whitelist(): set<string> {
    set n | n in Names
  }

  lemma NamesAreDistinct()
    ensures HasNoDuplicates(Names)
  {
  }

  /** A name `_normalize_med_name` leaves unchanged. */
  predicate IsCanonicalName(n: string) {
    IsStripped(n) && HasNoUpper(n) && '.' !in n
  }

  lemma CanonicalNames0()
    ensures IsCanonicalName("paracetamol") && IsCanonicalName("acetaminophen") && IsCanonicalName("ibuprofen")
  {
  }

  lemma CanonicalNames1()
    ensures IsCanonicalName("aspirin") && IsCanonicalName("dextromethorphan") && IsCanonicalName("guaifenesin")
  {
  }

  lemma CanonicalNames2()
    ensures IsCanonicalName("pseudoephedrine") && IsCanonicalName("phenylephrine") && IsCanonicalName("cetirizine")
  {
  }

  lemma CanonicalNames3()
    ensures IsCanonicalName("loratadine") && IsCanonicalName("diphenhydramine") && IsCanonicalName("saline nasal spray")
  {
  }

  lemma CanonicalNames4()
    ensures IsCanonicalName("honey") && IsCanonicalName("menthol") && IsCanonicalName("levothyroxine")
  {
  }

  lemma CanonicalNames5()
    ensures IsCanonicalName("atorvastatin") && IsCanonicalName("omeprazole") && IsCanonicalName("albuterol")
  {
  }

  lemma CanonicalNames6()
    ensures IsCanonicalName("amoxicillin") && IsCanonicalName("lisinopril")
  {
  }

  lemma NamesAreCanonical()
    ensures forall n | n in Whitelist() :: IsCanonicalName(n)
  {
    CanonicalNames0();
    CanonicalNames1();
    CanonicalNames2();
    CanonicalNames3();
    CanonicalNames4();
    CanonicalNames5();
    CanonicalNames6();
  }
}
