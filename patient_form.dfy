/**
 * `extractMeds` of the patient form (src/components/PatientForm.js): the medicine
 * suggestions shown next to an assessment. Known medicine terms named in the advice win;
 * otherwise keyword rules over the symptom text fill a JavaScript `Set`; when no rule
 * fires, four default suggestions are shown.
 */
module PatientForm {
  import opened Common
  import opened Strings

  /** The `known` terms, in their order. */
  const Known: seq<string> := [
    "paracetamol", "acetaminophen", "ibuprofen", "naproxen", "naproxen sodium",
    "antihistamine", "loratadine", "cetirizine", "diphenhydramine", "chlorpheniramine",
    "decongestant", "pseudoephedrine", "phenylephrine", "oxymetazoline",
    "dextromethorphan", "guaifenesin", "saline", "honey", "lozenge", "menthol",
    "hydrocortisone", "bacitracin", "neomycin", "calamine", "loperamide", "bismuth", "antacid", "oral rehydration",
    "nausea", "vomit", "vomiting", "dimenhydrinate", "meclizine", "senna", "polyethylene glycol", "docusate", "bisacodyl", "laxative"
  ]

  /** `terms.filter(k => text.includes(k))`. */
  function KnownIn(terms: seq<string>, text: string): seq<string> {
    if terms == [] then []
    else
      var found := KnownIn(terms[..|terms| - 1], text);
      if Contains(text, terms[|terms| - 1]) then found + [terms[|terms| - 1]] else found
  }

  /** `value || ''` for a possibly missing text. */
  function OrEmpty(v: Option<string>): string {
    if v.Some? then v.value else ""
  }

  // ---------------------------------------------------------------- the symptom rules

  /** How a rule inspects the lower-cased symptom text: a substring test on any of the
      terms, or a whole-word regular-expression match (`\b(w1|w2|...)\b`). */
  datatype Test = AnyOf(terms: seq<string>) | AnyWordOf(words: seq<string>)

  /** One `if` block of the fallback: its test and the suggestions it adds, in order. */
  datatype Rule = Rule(test: Test, adds: seq<string>)

  /** A character of the regular-expression class `\w`. */
  predicate IsWordChar(c: char) {
    ('a' <= c <= 'z') || ('A' <= c <= 'Z') || ('0' <= c <= '9') || c == '_'
  }

  /** `w` occurs at `i` with a word boundary on both sides. */
  predicate WordAt(s: string, w: string, i: nat) {
    OccursAt(s, w, i)
    && (i == 0 || !IsWordChar(s[i - 1]))
    && (i + |w| == |s| || !IsWordChar(s[i + |w|]))
  }

  /** `w` occurs as a whole word at `i` or later. */
  predicate HasWordFrom(s: string, w: string, i: nat)
    decreases |s| - i
  {
    i + |w| <= |s| && (WordAt(s, w, i) || HasWordFrom(s, w, i + 1))
  }

  predicate HasWord(s: string, w: string) {
    HasWordFrom(s, w, 0)
  }

  /** Some term of `terms` passes `has`. */
  predicate AnyTerm(s: string, terms: seq<string>, whole: bool) {
    if terms == [] then false
    else
      var t := terms[|terms| - 1];
      (if whole then HasWord(s, t) else Contains(s, t)) || AnyTerm(s, terms[..|terms| - 1], whole)
  }

  predicate Fires(t: Test, s: string) {
    match t
    case AnyOf(terms) => AnyTerm(s, terms, false)
    case AnyWordOf(words) => AnyTerm(s, words, true)
  }

  /** The alternatives of the first rule's regular expression. */
  const FeverWords: seq<string> := ["fever", "headache", "pain", "ache", "muscle"]

  /** The `if` blocks of the fallback, in their order. */
  const Rules: seq<Rule> := [
    Rule(AnyWordOf(FeverWords),
      ["paracetamol (acetaminophen)", "ibuprofen (if no contraindication)", "naproxen sodium (if appropriate)"]),
    Rule(AnyOf(["cough"]),
      ["dextromethorphan (cough suppressant - for dry cough)", "guaifenesin (expectorant - for productive cough)",
       "honey or throat lozenges (children >1y for cough relief)"]),
    Rule(AnyOf(["congest", "runny", "sneeze", "nasal"]),
      ["saline nasal spray", "oxymetazoline nasal spray (short-term use)",
       "oral decongestant (pseudoephedrine or phenylephrine) — check interactions"]),
    Rule(AnyOf(["allerg", "itch", "hayfever", "sneez"]),
      ["loratadine or cetirizine (non-drowsy antihistamines)",
       "diphenhydramine (sedating antihistamine - avoid if you must stay alert)"]),
    Rule(AnyOf(["rash", "hives", "skin", "wound"]),
      ["topical hydrocortisone 1% cream for mild inflammation",
       "antiseptic/antibiotic ointment (e.g., bacitracin/neosporin) for minor wounds",
       "calamine lotion for itch or mild rash"]),
    Rule(AnyOf(["diarrh", "diarrhoea", "loose stool"]),
      ["loperamide for diarrhea (follow dosing instructions)", "oral rehydration salts to prevent dehydration"]),
    Rule(AnyOf(["nausea", "nauseous"]),
      ["oral rehydration and small, bland meals; see pharmacist for anti-nausea options",
       "dimenhydrinate or meclizine (for motion sickness/vertigo - check with pharmacist)"]),
    Rule(AnyOf(["vomit", "vomiting"]),
      ["small sips of oral rehydration; seek pharmacist advice for antiemetics (dimenhydrinate/meclizine)"]),
    Rule(AnyOf(["constip", "constipation", "hard stool"]),
      ["increase dietary fiber and fluids; consider bulk-forming fiber or polyethylene glycol (osmotic laxative)",
       "short-term stimulant laxatives (senna, bisacodyl) or stool softeners (docusate) if required - check with pharmacist"]),
    Rule(AnyOf(["heartburn", "acid", "reflux"]),
      ["antacids (calcium carbonate) or H2 blockers - check with pharmacist for persistent symptoms"])
  ]

  /** The suggestions when no rule fires. */
  const Defaults: seq<string> := [
    "paracetamol (acetaminophen)", "ibuprofen (if no contraindication)", "saline nasal spray",
    "lozenges or throat soothing options"
  ]

  /** Everything the fired rules add, in the order of the `add` calls. */
  function FiredAdds(rules: seq<Rule>, s: string): seq<string> {
    if rules == [] then []
    else
      var r := rules[|rules| - 1];
      FiredAdds(rules[..|rules| - 1], s) + (if Fires(r.test, s) then r.adds else [])
  }

  /** The `suggestions` set after the rule blocks have run: the fired suggestions in
      insertion order, each once. */
  method Suggest(rules: seq<Rule>, s: string) returns (suggestions: seq<string>)
    ensures suggestions == Dedup(FiredAdds(rules, s))
  {
    suggestions := [];
    for k := 0 to |rules|
      invariant suggestions == Dedup(FiredAdds(rules[..k], s))
    {
      assert rules[..k + 1][..k] == rules[..k];
      ghost var before := FiredAdds(rules[..k], s);
      if Fires(rules[k].test, s) {
        var adds := rules[k].adds;
        assert before + adds[..0] == before;
        for j := 0 to |adds|
          invariant suggestions == Dedup(before + adds[..j])
        {
          assert before + adds[..j + 1] == (before + adds[..j]) + [adds[j]];
          if adds[j] !in suggestions {
            suggestions := suggestions + [adds[j]];
          }
        }
        assert adds[..|adds|] == adds;
      } else {
        assert FiredAdds(rules[..k + 1], s) == before + [];
        assert before + [] == before;
      }
    }
    assert rules[..|rules|] == rules;
  }

  // ---------------------------------------------------------------- extractMeds

  /** What `extractMeds(adviceText, symptomsText)` returns. */
  function ExtractedMeds(advice: Option<string>, symptoms: Option<string>): seq<string> {
    var found := KnownIn(Known, Lower(OrEmpty(advice)));
    if found != [] then Dedup(found)
    else
      var suggestions := Dedup(FiredAdds(Rules, Lower(OrEmpty(symptoms))));
      if suggestions != [] then suggestions else Defaults
  }

  /** `extractMeds`: the filter over `known`, then the rule blocks filling the `Set`. */
  method ExtractMeds(advice: Option<string>, symptoms: Option<string>) returns (r: seq<string>)
    ensures r == ExtractedMeds(advice, symptoms)
  {
    var lower := Lower(OrEmpty(advice));
    var found := KnownIn(Known, lower);
    if found != [] {
      return Dedup(found);
    }
    var s := Lower(OrEmpty(symptoms));
    var suggestions := Suggest(Rules, s);
    if suggestions != [] {
      return suggestions;
    }
    r := Defaults;
  }

  // ---------------------------------------------------------------- properties

  /** The filter keeps exactly the terms the text contains, in their order. */
  lemma {:induction false} KnownInMembers(terms: seq<string>, text: string)
    ensures forall x :: x in KnownIn(terms, text) <==> x in terms && Contains(text, x)
    ensures IsSubsequence(KnownIn(terms, text), terms)
  {
    if terms != [] {
      var init := terms[..|terms| - 1];
      var t := terms[|terms| - 1];
      KnownInMembers(init, text);
      assert init + [t] == terms;
      if Contains(text, t) {
        SubsequenceAppendBoth(KnownIn(init, text), init, t);
      } else {
        SubsequenceExtend(KnownIn(init, text), init, t);
      }
    }
  }

  /** Advice that names a known term yields exactly the known terms it contains, in the
      order of `known`, each once. */
  lemma AdviceTermsWin(advice: Option<string>, symptoms: Option<string>)
    requires KnownIn(Known, Lower(OrEmpty(advice))) != []
    ensures var r := ExtractedMeds(advice, symptoms);
            && (forall x :: x in r <==> x in Known && Contains(Lower(OrEmpty(advice)), x))
            && IsSubsequence(r, Known)
            && HasNoDuplicates(r)
  {
    var found := KnownIn(Known, Lower(OrEmpty(advice)));
    KnownInMembers(Known, Lower(OrEmpty(advice)));
    DedupMembers(found);
    DedupNoDuplicates(found);
    DedupIsSubsequence(found);
    SubsequenceTransitive(Dedup(found), found, Known);
  }

  /** Everything the fired rules add, and nothing else. */
  lemma {:induction false} FiredAddsMembers(rules: seq<Rule>, s: string)
    ensures forall x :: x in FiredAdds(rules, s) <==>
      exists k | 0 <= k < |rules| :: Fires(rules[k].test, s) && x in rules[k].adds
  {
    if rules != [] {
      var init := rules[..|rules| - 1];
      FiredAddsMembers(init, s);
      forall x | x in FiredAdds(rules, s)
        ensures exists k | 0 <= k < |rules| :: Fires(rules[k].test, s) && x in rules[k].adds
      {
        if x in FiredAdds(init, s) {
          var k :| 0 <= k < |init| && Fires(init[k].test, s) && x in init[k].adds;
          assert rules[k] == init[k];
        } else {
          assert Fires(rules[|rules| - 1].test, s) && x in rules[|rules| - 1].adds;
        }
      }
      forall x | exists k | 0 <= k < |rules| :: Fires(rules[k].test, s) && x in rules[k].adds
        ensures x in FiredAdds(rules, s)
      {
        var k :| 0 <= k < |rules| && Fires(rules[k].test, s) && x in rules[k].adds;
        if k < |init| {
          assert init[k] == rules[k];
        }
      }
    }
  }

  /** Without a known term in the advice, the result comes from the symptom text alone:
      every suggestion of a fired rule, nothing else, each once, in insertion order; the
      defaults when no rule fires. */
  lemma SymptomRulesOtherwise(advice: Option<string>, symptoms: Option<string>)
    requires KnownIn(Known, Lower(OrEmpty(advice))) == []
    ensures var s := Lower(OrEmpty(symptoms));
            var r := ExtractedMeds(advice, symptoms);
            && (FiredAdds(Rules, s) == [] ==> r == Defaults)
            && (FiredAdds(Rules, s) != [] ==>
                  && r == Dedup(FiredAdds(Rules, s))
                  && HasNoDuplicates(r)
                  && (forall x :: x in r <==> exists k | 0 <= k < |Rules| :: Fires(Rules[k].test, s) && x in Rules[k].adds))
  {
    var s := Lower(OrEmpty(symptoms));
    DedupMembers(FiredAdds(Rules, s));
    DedupNoDuplicates(FiredAdds(Rules, s));
    FiredAddsMembers(Rules, s);
    if FiredAdds(Rules, s) != [] {
      assert FiredAdds(Rules, s)[0] in Dedup(FiredAdds(Rules, s));
    }
  }

  /** The advice is ignored unless it names a known term. */
  lemma AdviceWithoutTermsIgnored(a1: Option<string>, a2: Option<string>, symptoms: Option<string>)
    requires KnownIn(Known, Lower(OrEmpty(a1))) == [] && KnownIn(Known, Lower(OrEmpty(a2))) == []
    ensures ExtractedMeds(a1, symptoms) == ExtractedMeds(a2, symptoms)
  {
  }

  /** There is always something to suggest. */
  lemma SuggestionsNeverEmpty(advice: Option<string>, symptoms: Option<string>)
    ensures ExtractedMeds(advice, symptoms) != []
  {
    var found := KnownIn(Known, Lower(OrEmpty(advice)));
    if found != [] {
      DedupMembers(found);
      assert found[0] in Dedup(found);
    }
  }

  /** Missing advice or symptoms read as the empty text. */
  lemma MissingTextIsEmpty(advice: Option<string>, symptoms: Option<string>)
    ensures ExtractedMeds(None, symptoms) == ExtractedMeds(Some(""), symptoms)
    ensures ExtractedMeds(advice, None) == ExtractedMeds(advice, Some(""))
  {
  }

  /** A whole-word match is in particular a substring match. */
  lemma {:induction false} WordIsSubstring(s: string, w: string, i: nat)
    requires HasWordFrom(s, w, i)
    ensures Contains(s, w)
    decreases |s| - i
  {
    if WordAt(s, w, i) {
      ContainsIffOccurs(s, w);
    } else {
      WordIsSubstring(s, w, i + 1);
    }
  }

  /** Some term passes the test exactly when one of them is there, as a word or as a
      substring. */
  lemma {:induction false} AnyTermFinds(s: string, terms: seq<string>, whole: bool)
    ensures AnyTerm(s, terms, whole) <==>
      exists k | 0 <= k < |terms| :: if whole then HasWord(s, terms[k]) else Contains(s, terms[k])
  {
    if terms != [] {
      var init := terms[..|terms| - 1];
      AnyTermFinds(s, init, whole);
      if exists k | 0 <= k < |terms| :: if whole then HasWord(s, terms[k]) else Contains(s, terms[k]) {
        var k :| 0 <= k < |terms| && if whole then HasWord(s, terms[k]) else Contains(s, terms[k]);
        if k < |init| {
          assert terms[k] == init[k];
        }
      }
      if AnyTerm(s, init, whole) {
        var k :| 0 <= k < |init| && if whole then HasWord(s, init[k]) else Contains(s, init[k]);
        assert terms[k] == init[k];
      }
    }
  }

  /** The fever rule fires exactly on a whole-word fever, headache, pain, ache or muscle. */
  lemma FeverRuleNeedsWholeWord(s: string)
    ensures Fires(Rules[0].test, s) <==> exists k | 0 <= k < |FeverWords| :: HasWord(s, FeverWords[k])
  {
    AnyTermFinds(s, FeverWords, true);
  }

  /** "feverish" contains "fever" but not as a word; "high fever" does. */
  lemma FeverishIsNotFever()
    ensures Contains("feverish", "fever") && !HasWord("feverish", "fever")
    ensures HasWord("high fever", "fever")
  {
    ContainsInLarger([], "fever", "ish", "fever") by {
      ContainsSelf("fever");
    }
    assert [] + "fever" + "ish" == "feverish";
    assert !WordAt("feverish", "fever", 0);
    assert WordAt("high fever", "fever", 5);
  }

  /** Every suggestion of a fired rule is in the set. */
  lemma FiredRuleKept(rules: seq<Rule>, k: nat, s: string)
    requires k < |rules| && Fires(rules[k].test, s)
    ensures forall x | x in rules[k].adds :: x in Dedup(FiredAdds(rules, s))
  {
    FiredAddsMembers(rules, s);
    DedupMembers(FiredAdds(rules, s));
  }

  /** Cough in the symptoms, with no known term in the advice, brings the three cough
      suggestions. */
  lemma CoughSuggestions(advice: Option<string>, symptoms: Option<string>)
    requires KnownIn(Known, Lower(OrEmpty(advice))) == []
    requires Contains(Lower(OrEmpty(symptoms)), "cough")
    ensures forall x | x in Rules[1].adds :: x in ExtractedMeds(advice, symptoms)
  {
    FiredRuleKept(Rules, 1, Lower(OrEmpty(symptoms)));
  }
}
