/**
 * The deterministic steps around the language model in utils/model_loader.py: the first
 * pass of `_collapse_repetition` over the sentences of a raw answer, the caution that
 * `_apply_med_warnings` puts in front of an answer, the context line of the prompt, and
 * the length cap on the final answer.
 */
module ModelLoader {
  import opened Common
  import opened Strings

  // ---------------------------------------------------------------- repeated sentences

  /** The loop state of `_collapse_repetition`: the kept sentences and `repeat_count`. */
  datatype Collapse = Collapse(out: seq<string>, repeats: nat)

  /** One iteration: a non-empty sentence equal to the last kept one is kept only while it
      is the first repetition; any other sentence is kept and resets the count. */
  function CollapseStep(st: Collapse, s: string): Collapse {
    if st.out != [] && s != "" && s == st.out[|st.out| - 1] then
      if st.repeats + 1 < 2 then Collapse(st.out + [s], st.repeats + 1)
      else Collapse(st.out, st.repeats + 1)
    else Collapse(st.out + [s], 0)
  }

  /** The state after the loop has seen `sentences`. */
  function Collapsed(sentences: seq<string>): Collapse {
    if sentences == [] then Collapse([], 0)
    else CollapseStep(Collapsed(sentences[..|sentences| - 1]), sentences[|sentences| - 1])
  }

  /** The first pass of `_collapse_repetition` over the sentences of the answer. */
  method CollapseRepetition(sentences: seq<string>) returns (out: seq<string>)
    ensures out == Collapsed(sentences).out
  {
    out := [];
    var repeatCount: nat := 0;
    var i := 0;
    while i < |sentences|
      invariant 0 <= i <= |sentences|
      invariant Collapse(out, repeatCount) == Collapsed(sentences[..i])
    {
      var s := sentences[i];
      if out != [] && s != "" && s == out[|out| - 1] {
        repeatCount := repeatCount + 1;
        if repeatCount < 2 {
          out := out + [s];
        }
      } else {
        repeatCount := 0;
        out := out + [s];
      }
      assert sentences[..i + 1][..i] == sentences[..i];
      i := i + 1;
    }
    assert sentences[..|sentences|] == sentences;
  }

  /** No non-empty sentence occurs three times in a row. */
  predicate NoTripleRun(out: seq<string>) {
    forall i | 0 <= i && i + 2 < |out| :: !(out[i] != "" && out[i] == out[i + 1] && out[i + 1] == out[i + 2])
  }

  /** The loop's bookkeeping: when the kept sentences end in a repeated pair, the count
      records the repetition. */
  predicate CountsPair(st: Collapse) {
    var o := st.out;
    |o| >= 2 && o[|o| - 1] != "" && o[|o| - 1] == o[|o| - 2] ==> st.repeats >= 1
  }

  /** The kept sentences are the input with some sentences left out. */
  lemma {:induction false} CollapsedIsSubsequence(sentences: seq<string>)
    ensures IsSubsequence(Collapsed(sentences).out, sentences)
  {
    if sentences != [] {
      var init := sentences[..|sentences| - 1];
      var s := sentences[|sentences| - 1];
      var st := Collapsed(init);
      CollapsedIsSubsequence(init);
      assert init + [s] == sentences;
      if CollapseStep(st, s).out == st.out {
        SubsequenceExtend(st.out, init, s);
      } else {
        SubsequenceAppendBoth(st.out, init, s);
      }
    }
  }

  /** Each run of identical non-empty sentences is cut to at most two. */
  lemma {:induction false} CollapsedCapsRuns(sentences: seq<string>)
    ensures NoTripleRun(Collapsed(sentences).out)
    ensures CountsPair(Collapsed(sentences))
  {
    if sentences != [] {
      var init := sentences[..|sentences| - 1];
      var s := sentences[|sentences| - 1];
      var st := Collapsed(init);
      CollapsedCapsRuns(init);
      var o := CollapseStep(st, s).out;
      if o != st.out {
        assert o == st.out + [s];
        forall i | 0 <= i && i + 2 < |o|
          ensures !(o[i] != "" && o[i] == o[i + 1] && o[i + 1] == o[i + 2])
        {
          if i + 2 < |st.out| {
            assert o[i] == st.out[i] && o[i + 1] == st.out[i + 1] && o[i + 2] == st.out[i + 2];
          }
        }
      }
    }
  }

  /** Sentences without a non-empty sentence repeated next to itself pass unchanged. */
  lemma {:induction false} CollapsedKeepsDistinctNeighbours(sentences: seq<string>)
    requires forall i | 0 <= i && i + 1 < |sentences| :: sentences[i] == "" || sentences[i] != sentences[i + 1]
    ensures Collapsed(sentences).out == sentences
  {
    if sentences != [] {
      var init := sentences[..|sentences| - 1];
      CollapsedKeepsDistinctNeighbours(init);
      assert init + [sentences[|sentences| - 1]] == sentences;
    }
  }

  /** One repetition of a sentence is allowed; the third copy is dropped. */
  lemma ThirdCopyDropped(a: string, b: string)
    requires a != "" && b != a
    ensures Collapsed([a, a, a, b]).out == [a, a, b]
  {
    CollapsedSnoc([], a);
    assert [] + [a] == [a];
    assert Collapsed([a]) == Collapse([a], 0);
    CollapsedSnoc([a], a);
    assert [a] + [a] == [a, a];
    assert Collapsed([a, a]) == Collapse([a, a], 1);
    CollapsedSnoc([a, a], a);
    assert [a, a] + [a] == [a, a, a];
    assert Collapsed([a, a, a]) == Collapse([a, a], 2);
    CollapsedSnoc([a, a, a], b);
    assert [a, a, a] + [b] == [a, a, a, b];
    assert [a, a] + [b] == [a, a, b];
  }

  /** The loop's state after one more sentence. */
  lemma CollapsedSnoc(sentences: seq<string>, s: string)
    ensures Collapsed(sentences + [s]) == CollapseStep(Collapsed(sentences), s)
  {
    assert (sentences + [s])[..|sentences|] == sentences;
  }

  // ---------------------------------------------------------------- medication cautions

  /** `_MED_WARNING`: a watched medicine name and the caution for it. */
  const MedWarnings: seq<(string, string)> := [
    ("ibuprofen", "Caution: Nonsteroidal anti-inflammatory drugs (e.g., ibuprofen) may increase blood pressure or interact with antihypertensive drugs. Consult your doctor or pharmacist before taking.")
  ]

  /** `' '.join(m.lower() for m in meds)`. */
  function MedsText(meds: seq<string>): string {
    Join(" ", seq(|meds|, i requires 0 <= i < |meds| => Lower(meds[i])))
  }

  /** The medicine is named in the lower-cased question or in the context medications. */
  predicate Triggered(med: string, question: string, meds: seq<string>) {
    Contains(Lower(question), med) || Contains(MedsText(meds), med)
  }

  /** The answer after the loop over `table`: each triggered caution missing from the text
      is put in front of it, followed by a blank line. */
  function Warned(table: seq<(string, string)>, question: string, meds: seq<string>, generated: string): string {
    if table == [] then generated
    else
      var g := Warned(table[..|table| - 1], question, meds, generated);
      var (med, warning) := table[|table| - 1];
      if Triggered(med, question, meds) && !Contains(g, warning) then warning + "\n\n" + g else g
  }

  /** `_apply_med_warnings(question, generated, context)`, with `meds` the context's
      `medications` (empty without a context). */
  method ApplyMedWarnings(question: string, generated: string, meds: seq<string>) returns (r: string)
    ensures r == Warned(MedWarnings, question, meds, generated)
  {
    r := generated;
    var k := 0;
    while k < |MedWarnings|
      invariant 0 <= k <= |MedWarnings|
      invariant r == Warned(MedWarnings[..k], question, meds, generated)
    {
      var (med, warning) := MedWarnings[k];
      if Triggered(med, question, meds) && !Contains(r, warning) {
        r := warning + "\n\n" + r;
      }
      assert MedWarnings[..k + 1][..k] == MedWarnings[..k];
      k := k + 1;
    }
    assert MedWarnings[..|MedWarnings|] == MedWarnings;
  }

  /** Nothing is added unless a watched medicine is mentioned. */
  lemma {:induction false} WarnedOnlyWhenTriggered(table: seq<(string, string)>, question: string, meds: seq<string>, generated: string)
    requires forall k | 0 <= k < |table| :: !Triggered(table[k].0, question, meds)
    ensures Warned(table, question, meds, generated) == generated
  {
    if table != [] {
      WarnedOnlyWhenTriggered(table[..|table| - 1], question, meds, generated);
    }
  }

  /** The answer itself is kept, at the end. */
  lemma {:induction false} WarnedEndsWithAnswer(table: seq<(string, string)>, question: string, meds: seq<string>, generated: string)
    ensures EndsWith(Warned(table, question, meds, generated), generated)
  {
    if table != [] {
      var g := Warned(table[..|table| - 1], question, meds, generated);
      WarnedEndsWithAnswer(table[..|table| - 1], question, meds, generated);
      var (med, warning) := table[|table| - 1];
      ConcatEnds(warning + "\n\n", g);
      EndsWithTransitive(warning + "\n\n" + g, g, generated);
    }
  }

  /** A suffix of a suffix is a suffix. */
  lemma EndsWithTransitive(x: string, y: string, z: string)
    requires EndsWith(x, y) && EndsWith(y, z)
    ensures EndsWith(x, z)
  {
    assert x[|x| - |z|..] == y[|y| - |z|..];
  }

  /** Every triggered caution is in the result. */
  lemma {:induction false} WarnedContainsTriggered(table: seq<(string, string)>, question: string, meds: seq<string>, generated: string)
    ensures forall k | 0 <= k < |table| && Triggered(table[k].0, question, meds) ::
      Contains(Warned(table, question, meds, generated), table[k].1)
  {
    if table != [] {
      var init := table[..|table| - 1];
      var g := Warned(init, question, meds, generated);
      WarnedContainsTriggered(init, question, meds, generated);
      var (med, warning) := table[|table| - 1];
      var r := Warned(table, question, meds, generated);
      forall k | 0 <= k < |table| && Triggered(table[k].0, question, meds) ensures Contains(r, table[k].1) {
        if r != g {
          assert r == [] + warning + ("\n\n" + g);
          if k < |init| {
            assert table[k] == init[k];
            ContainsInLarger(warning + "\n\n", g, [], table[k].1);
            assert warning + "\n\n" + g + [] == r;
          } else {
            ContainsSelf(warning);
            ContainsInLarger([], warning, "\n\n" + g, warning);
          }
        }
      }
    }
  }

  /** Text that already holds every triggered caution is left alone. */
  lemma {:induction false} WarnedKeepsWarnedText(table: seq<(string, string)>, question: string, meds: seq<string>, text: string)
    requires forall k | 0 <= k < |table| && Triggered(table[k].0, question, meds) :: Contains(text, table[k].1)
    ensures Warned(table, question, meds, text) == text
  {
    if table != [] {
      var init := table[..|table| - 1];
      assert forall k | 0 <= k < |init| :: init[k] == table[k];
      WarnedKeepsWarnedText(init, question, meds, text);
    }
  }

  /** Applying the cautions twice is applying them once. */
  lemma WarnedIdempotent(table: seq<(string, string)>, question: string, meds: seq<string>, generated: string)
    ensures var once := Warned(table, question, meds, generated);
            Warned(table, question, meds, once) == once
  {
    WarnedContainsTriggered(table, question, meds, generated);
    WarnedKeepsWarnedText(table, question, meds, Warned(table, question, meds, generated));
  }

  // ---------------------------------------------------------------- the context line of the prompt

  /** A context value: a string or a list of strings. */
  datatype Items = Text(s: string) | List(xs: seq<string>) {
    /** Python truthiness. */
    predicate Truthy() {
      match this
      case Text(s) => s != ""
      case List(xs) => xs != []
    }

    /** What iterating over the value yields: the characters of a string, the elements of a list. */
    function Elements(): seq<string> {
      match this
      case Text(s) => seq(|s|, i requires 0 <= i < |s| => [s[i]])
      case List(xs) => xs
    }
  }

  /** The `context` dict of `generate_answer`; an absent key is `None`. */
  datatype Context = Context(medications: Option<Items>, conditions: Option<Items>, symptoms: Option<string>, allergies: Option<string>)

  /** The key is present and its value truthy. */
  predicate HasItems(v: Option<Items>) {
    v.Some? && v.value.Truthy()
  }

  predicate HasText(v: Option<string>) {
    v.Some? && v.value != ""
  }

  /** The context string: medications, conditions, symptoms and allergies, in this order,
      each only when present and truthy. */
  const MedicationsLabel := "Current medications: "
  const ConditionsLabel := "Known conditions: "
  const SymptomsLabel := "Presenting symptoms: "
  const AllergiesLabel := "Allergies: "

  function ContextText(ctx: Context): string {
    MedicationsPart(ctx) + ConditionsPart(ctx) + SymptomsPart(ctx) + AllergiesPart(ctx)
  }

  function MedicationsPart(ctx: Context): string {
    if HasItems(ctx.medications) then MedicationsLabel + Join(", ", ctx.medications.value.Elements()) + ". " else ""
  }

  function ConditionsPart(ctx: Context): string {
    if HasItems(ctx.conditions) then ConditionsLabel + Join(", ", ctx.conditions.value.Elements()) + ". " else ""
  }

  function SymptomsPart(ctx: Context): string {
    if HasText(ctx.symptoms) then SymptomsLabel + ctx.symptoms.value + ". " else ""
  }

  function AllergiesPart(ctx: Context): string {
    if HasText(ctx.allergies) then AllergiesLabel + ctx.allergies.value + ". " else ""
  }

  /** The `context_str` of `generate_answer`, built by appending. */
  method BuildContext(ctx: Context) returns (s: string)
    ensures s == ContextText(ctx)
  {
    s := "";
    if ctx.medications.Some? && ctx.medications.value.Truthy() {
      s := s + (MedicationsLabel + Join(", ", ctx.medications.value.Elements()) + ". ");
    }
    assert s == MedicationsPart(ctx);
    ghost var done := s;
    if ctx.conditions.Some? && ctx.conditions.value.Truthy() {
      s := s + (ConditionsLabel + Join(", ", ctx.conditions.value.Elements()) + ". ");
    }
    assert s == done + ConditionsPart(ctx);
    done := s;
    if ctx.symptoms.Some? && ctx.symptoms.value != "" {
      s := s + (SymptomsLabel + ctx.symptoms.value + ". ");
    }
    assert s == done + SymptomsPart(ctx);
    done := s;
    if ctx.allergies.Some? && ctx.allergies.value != "" {
      s := s + (AllergiesLabel + ctx.allergies.value + ". ");
    }
    assert s == done + AllergiesPart(ctx);
  }

  const NoContext := "General medical information request"

  /** What follows `CONTEXT: ` in the prompt. */
  function ContextLine(ctx: Context): string {
    var s := ContextText(ctx);
    if s != "" then s else NoContext
  }

  /** The fallback line appears exactly when no context field is present and truthy. */
  lemma ContextFallback(ctx: Context)
    ensures ContextLine(ctx) == NoContext <==>
      !HasItems(ctx.medications) && !HasItems(ctx.conditions) && !HasText(ctx.symptoms) && !HasText(ctx.allergies)
  {
    var s := ContextText(ctx);
    if s != "" {
      assert s != NoContext by {
        if HasItems(ctx.medications) {
          assert s[0] == MedicationsPart(ctx)[0] == 'C';
        } else if HasItems(ctx.conditions) {
          assert s[0] == ConditionsPart(ctx)[0] == 'K';
        } else if HasText(ctx.symptoms) {
          assert s[0] == SymptomsPart(ctx)[0] == 'P';
        } else {
          assert s[0] == AllergiesPart(ctx)[0] == 'A';
        }
      }
    }
  }

  /** The context is read in a fixed order: the medications section, when there is one,
      opens the line, and the allergies section, when there is one, closes it. */
  lemma ContextOrder(ctx: Context)
    requires HasItems(ctx.medications) && HasText(ctx.allergies)
    ensures StartsWith(ContextText(ctx), MedicationsLabel)
    ensures EndsWith(ContextText(ctx), AllergiesLabel + ctx.allergies.value + ". ")
  {
    var m := MedicationsPart(ctx);
    var j := Join(", ", ctx.medications.value.Elements());
    ConcatEnds(MedicationsLabel, j);
    StartsWithExtended(MedicationsLabel + j, ". ", MedicationsLabel);
    StartsWithExtended(m, ConditionsPart(ctx), MedicationsLabel);
    StartsWithExtended(m + ConditionsPart(ctx), SymptomsPart(ctx), MedicationsLabel);
    StartsWithExtended(m + ConditionsPart(ctx) + SymptomsPart(ctx), AllergiesPart(ctx), MedicationsLabel);
    ConcatEnds(m + ConditionsPart(ctx) + SymptomsPart(ctx), AllergiesPart(ctx));
  }

  /** What a string starts with, its extensions start with too. */
  lemma StartsWithExtended(x: string, y: string, p: string)
    requires StartsWith(x, p)
    ensures StartsWith(x + y, p)
  {
    assert (x + y)[..|p|] == x[..|p|];
  }

  /** A concatenation starts with its first part and ends with its second. */
  lemma ConcatEnds(x: string, y: string)
    ensures StartsWith(x + y, x) && EndsWith(x + y, y)
  {
    assert (x + y)[..|x|] == x;
    assert (x + y)[|x|..] == y;
  }

  /** A string given for a list-valued key is joined character by character. */
  lemma ConditionsSpelledOut()
    ensures Join(", ", Text("flu").Elements()) == "f, l, u"
  {
    assert Text("flu").Elements() == ["f", "l", "u"];
  }

  // ---------------------------------------------------------------- the length cap

  const MaxAnswer := 3000

  /** A sentence end, `". "`, starts at `k`. */
  predicate SentenceEndAt(s: string, k: int) {
    0 <= k && k + 1 < |s| && s[k] == '.' && s[k + 1] == ' '
  }

  /** The largest `j < i` at which `". "` starts in `s`, or -1. */
  function LastSentenceEnd(s: string, i: nat): (j: int)
    requires i == 0 || i < |s|
    ensures -1 <= j < i
    ensures j >= 0 ==> SentenceEndAt(s, j)
  {
    if i == 0 then -1
    else if SentenceEndAt(s, i - 1) then i - 1
    else LastSentenceEnd(s, i - 1)
  }

  lemma {:induction false} LastSentenceEndIsLast(s: string, i: nat)
    requires i == 0 || i < |s|
    ensures forall k | LastSentenceEnd(s, i) < k < i :: !SentenceEndAt(s, k)
  {
    if i > 0 && !SentenceEndAt(s, i - 1) {
      LastSentenceEndIsLast(s, i - 1);
    }
  }

  /** `s.rsplit('. ', 1)[0]`: the text before the last `". "`, or all of `s`. */
  function BeforeLastSentenceEnd(s: string): string {
    var j := LastSentenceEnd(s, if s == [] then 0 else |s| - 1);
    if j >= 0 then s[..j] else s
  }

  /** `cleaned[:3000].rsplit('. ', 1)[0] + '.'`. */
  function Cut(cleaned: string): string
    requires |cleaned| > MaxAnswer
  {
    BeforeLastSentenceEnd(cleaned[..MaxAnswer]) + "."
  }

  /** The last lines of `generate_answer`: an answer over 3000 characters is cut back to
      the end of a sentence; the result is stripped. */
  function TruncateAnswer(cleaned: string): (r: string)
    ensures |cleaned| <= MaxAnswer ==> r == Strip(cleaned)
    ensures |r| <= MaxAnswer + 1
  {
    if |cleaned| > MaxAnswer then Strip(Cut(cleaned)) else Strip(cleaned)
  }

  /** An answer that was cut keeps a prefix of the first 3000 characters, ends with the
      `.` that was added, and holds no `". "` after the cut. */
  lemma CutShape(cleaned: string)
    requires |cleaned| > MaxAnswer
    ensures var head := Cut(cleaned)[..|Cut(cleaned)| - 1];
            && Cut(cleaned) == head + "."
            && head <= cleaned[..MaxAnswer]
            && (forall k | |head| < k < MaxAnswer - 1 :: !SentenceEndAt(cleaned, k))
  {
    var p := cleaned[..MaxAnswer];
    var j := LastSentenceEnd(p, |p| - 1);
    LastSentenceEndIsLast(p, |p| - 1);
    var head := BeforeLastSentenceEnd(p);
    assert Cut(cleaned) == head + ".";
    assert Cut(cleaned)[..|Cut(cleaned)| - 1] == head;
    forall k | |head| < k < MaxAnswer - 1 ensures !SentenceEndAt(cleaned, k) {
      assert !SentenceEndAt(p, k);
    }
  }

  /** Stripping keeps the final `.` of a cut answer. */
  lemma StripKeepsFinalDot(head: string)
    ensures var r := Strip(head + ".");
            r != [] && r[|r| - 1] == '.'
  {
    var s := head + ".";
    var j := SkipSpace(s, 0);
    SkipSpaceSkipsSpace(s, 0);
    assert s[|head|] == '.';
    assert j <= |head|;
    var t := s[j..];
    assert t[|t| - 1] == '.';
    assert SpaceEnd(t, |t|) == |t|;
    assert t[..|t|] == t;
  }

  /** A cut answer ends with a full stop. */
  lemma TruncatedEndsWithDot(cleaned: string)
    requires |cleaned| > MaxAnswer
    ensures var r := TruncateAnswer(cleaned);
            r != [] && r[|r| - 1] == '.'
  {
    CutShape(cleaned);
    StripKeepsFinalDot(Cut(cleaned)[..|Cut(cleaned)| - 1]);
  }
}
