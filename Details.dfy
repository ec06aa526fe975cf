/**
 * The detail resolver and display formatting for the top candidate (app.py lines 569-601,
 * repeated as 645-678): the test, treatment and advice lookups with their per-field
 * defaults, and the record the session keeps as `final_top_match_details`.
 */
module Details {
  import opened Wrappers
  import opened Text
  import opened Ranking
  import opened KnowledgeBase

  const NoTest: string := "N/S"
  const NoTreatment: string := "N/S info"
  const NoAdvice: string := "General advice."

  /** The `final_top_match_details` dictionary; the `raw` fields are what a report is built from. */
  datatype Details = Details(
    diseaseDisplay: string,
    test: string,
    treatmentText: string,
    advice: string,
    personalized: string,
    rawSymptoms: seq<string>,
    rawDisease: string,
    rawConfidence: real,
    rawTest: string,
    rawTreatment: seq<string>,
    rawAdvice: string,
    rawPersonalized: string)

  /** An atom as shown to the patient: `atom.replace('_', ' ').title()`. */
  function Display(atom: string): (r: string)
    ensures |r| == |atom|
  {
    Title(ReplaceChar(atom, '_', ' '))
  }

  /**
   * One position of the displayed text: an underscore is shown as a space, any other
   * non-letter as it is, and a letter upper-cased where a word starts and lower-cased
   * elsewhere, so no underscore is left.
   */
  lemma DisplayShape(atom: string, i: nat)
    requires i < |atom|
    ensures Display(atom)[i] != '_'
    ensures atom[i] == '_' ==> Display(atom)[i] == ' '
    ensures !IsLetter(atom[i]) && atom[i] != '_' ==> Display(atom)[i] == atom[i]
    ensures IsLetter(Display(atom)[i]) <==> IsLetter(atom[i])
    ensures IsLetter(atom[i]) ==> (IsUpper(Display(atom)[i]) <==> i == 0 || !IsLetter(atom[i - 1]))
    ensures IsLetter(atom[i]) ==>
      Display(atom)[i] ==
        if i == 0 || !IsLetter(atom[i - 1]) then ToUpperChar(atom[i]) else ToLowerChar(atom[i])
  {
    var spaced := ReplaceChar(atom, '_', ' ');
    TitleAt(spaced, false, i);
    if i > 0 {
      assert IsLetter(spaced[i - 1]) <==> IsLetter(atom[i - 1]);
    }
  }

  /** Formatting an already formatted atom changes nothing. */
  lemma DisplayIdempotent(atom: string)
    ensures Display(Display(atom)) == Display(atom)
  {
    var once := Display(atom);
    forall i | 0 <= i < |once| ensures once[i] != '_' {
      DisplayShape(atom, i);
    }
    assert ReplaceChar(once, '_', ' ') == once;
    TitleFromIdempotent(ReplaceChar(atom, '_', ' '), false);
  }

  /** The `requires_test` answer, or `N/S` when there is none. */
  function ResolvedTest(kb: KnowledgeBase, disease: string): (r: string)
    ensures kb.test(TestQuery(disease)).None? ==> r == NoTest
    ensures kb.test(TestQuery(disease)).Some? ==> r == kb.test(TestQuery(disease)).value
  {
    kb.test(TestQuery(disease)).GetOr(NoTest)
  }

  /** The `treatment` answer as a list: a list as is, one atom wrapped, `["N/S info"]` when missing. */
  function ResolvedTreatment(kb: KnowledgeBase, disease: string): (r: seq<string>)
    ensures kb.treatment(TreatmentQuery(disease)).None? ==> r == [NoTreatment]
    ensures forall t :: kb.treatment(TreatmentQuery(disease)) == Some(Single(t)) ==> r == [t]
    ensures forall ts :: kb.treatment(TreatmentQuery(disease)) == Some(Several(ts)) ==> r == ts
  {
    match kb.treatment(TreatmentQuery(disease))
    case Some(Several(items)) => items
    case Some(Single(item)) => [item]
    case None => [NoTreatment]
  }

  /** The `advice` answer, or `General advice.` when there is none. */
  function ResolvedAdvice(kb: KnowledgeBase, disease: string): (r: string)
    ensures kb.advice(AdviceQuery(disease)).None? ==> r == NoAdvice
    ensures kb.advice(AdviceQuery(disease)).Some? ==> r == kb.advice(AdviceQuery(disease)).value
  {
    kb.advice(AdviceQuery(disease)).GetOr(NoAdvice)
  }

  /** The treatment steps as one bulleted text: it opens with a bullet and shows every step formatted. */
  function TreatmentText(items: seq<string>): (r: string)
    ensures |r| >= 2 && r[..2] == "- "
    ensures forall k :: 0 <= k < |items| ==> IsInfix(Display(items[k]), r)
  {
    var shown := seq(|items|, i requires 0 <= i < |items| => Display(items[i]));
    var joined := Join("\n- ", shown);
    assert forall k :: 0 <= k < |items| ==> IsInfix(Display(items[k]), "- " + joined) by {
      forall k | 0 <= k < |items|
        ensures IsInfix(Display(items[k]), "- " + joined)
      {
        assert shown[k] == Display(items[k]);
        InfixOfConcat(shown[k], "- ", joined);
      }
    }
    "- " + joined
  }

  /**
   * The details of the top candidate `top`: raw answers of the knowledge base (with
   * defaults) next to their displayed forms, the patient's symptoms and the advice note.
   */
  function BuildDetails(kb: KnowledgeBase, top: Candidate, symptoms: seq<string>, personalized: string): (d: Details)
    ensures d.rawDisease == top.disease && d.rawConfidence == top.confidence
    ensures d.rawSymptoms == symptoms
    ensures d.diseaseDisplay == Display(d.rawDisease) && d.test == Display(d.rawTest)
    ensures d.treatmentText == TreatmentText(d.rawTreatment)
    ensures d.advice == d.rawAdvice && d.personalized == d.rawPersonalized == personalized
  {
    var test := ResolvedTest(kb, top.disease);
    var treatment := ResolvedTreatment(kb, top.disease);
    var advice := ResolvedAdvice(kb, top.disease);
    Details(
      Display(top.disease), Display(test), TreatmentText(treatment), advice, personalized,
      symptoms, top.disease, top.confidence, test, treatment, advice, personalized)
  }

  /**
   * Partial detail: each lookup that yields nothing falls back to its own placeholder,
   * independently of the others, and a lookup that yields something is used as is.
   */
  lemma DetailDefaults(kb: KnowledgeBase, top: Candidate, symptoms: seq<string>, personalized: string)
    ensures var d := BuildDetails(kb, top, symptoms, personalized);
      && (kb.test(TestQuery(top.disease)).None? ==> d.rawTest == "N/S")
      && (kb.test(TestQuery(top.disease)).Some? ==> d.rawTest == kb.test(TestQuery(top.disease)).value)
      && (kb.treatment(TreatmentQuery(top.disease)).None? ==> d.rawTreatment == ["N/S info"])
      && (forall t :: kb.treatment(TreatmentQuery(top.disease)) == Some(Single(t)) ==> d.rawTreatment == [t])
      && (forall ts :: kb.treatment(TreatmentQuery(top.disease)) == Some(Several(ts)) ==> d.rawTreatment == ts)
      && (kb.advice(AdviceQuery(top.disease)).None? ==> d.rawAdvice == "General advice.")
      && (kb.advice(AdviceQuery(top.disease)).Some? ==> d.rawAdvice == kb.advice(AdviceQuery(top.disease)).value)
  {
  }

  /** Example: the atom `flu` is shown as `Flu`. */
  lemma DisplayFlu()
    ensures Display("flu") == "Flu"
  {
    assert ReplaceChar("flu", '_', ' ') == "flu";
    assert TitleFrom("u", true) == "u";
    assert TitleFrom("lu", true) == "lu";
    assert TitleFrom("flu", false) == "Flu";
  }
}
