/**
 * The diagnosis flow of the web session (app.py lines 517-602 and 618-693): the
 * symptom form ranks the knowledge base's candidates and either asks follow-up
 * questions or shows results at once; the follow-up form refines the ranking with the
 * answers. The session dictionary is a class whose fields the two handlers update.
 */
module Session {
  import opened Wrappers
  import opened Text
  import opened Ranking
  import opened KnowledgeBase
  import opened FollowUp
  import opened Advice
  import opened Details
  import opened Report

  /** Where the symptom form sends the user next. */
  datatype SubmitOutcome =
    | NoSymptomsSelected   // form shown again with a warning
    | NoInitialMatch       // no candidate: back to the form with a warning
    | AwaitingFollowUp     // follow-up questions stored, redirect to the follow-up page
    | ResultsReady         // no follow-up questions: results stored, redirect to results

  /** Where the follow-up form sends the user next. */
  datatype FollowUpOutcome =
    | NoPendingQuestions   // nothing to ask (or session expired): back to the symptom form
    | NoRefinedMatch       // the refined query found nothing: back to the symptom form
    | RefinedResultsReady  // refined results stored, redirect to results

  /**
   * The diagnosis keys of the session; `None` stands for an absent key. The handlers store
   * no `None` under these keys except `final_top_match_details`, which line 565 clears just
   * before line 588 overwrites it. `current_symptoms` and `current_risk_factors` are read
   * with `session.get(key, [])` (lines 594, 631-632, 671), written `GetOr([])` here; the
   * other keys are read with `session.get(key)`, which yields `None` for an absent key.
   */
  class DiagnosisSession {
    var currentSymptoms: Option<seq<string>>
    var currentRiskFactors: Option<seq<string>>
    var followUpQuestions: Option<seq<string>>
    var finalResultsData: Option<seq<Candidate>>
    var finalTopMatchDetails: Option<Details>
    var questionsAskedForDisplay: Option<seq<string>>

    /**
     * What the two handlers keep true: stored symptoms are never empty; pending questions
     * are a non-empty sorted list without repeats; stored results are at most three
     * candidates in descending confidence, never empty, and come with the details of
     * their first candidate; questions shown on the results page are sorted as asked.
     */
    ghost predicate Valid()
      reads this
    {
      SymptomsStored() && QuestionsPending() && ResultsStored() && QuestionsShown()
    }

    ghost predicate SymptomsStored()
      reads `currentSymptoms
    {
      currentSymptoms.Some? ==> currentSymptoms.value != []
    }

    ghost predicate QuestionsPending()
      reads `followUpQuestions
    {
      followUpQuestions.Some? ==>
        followUpQuestions.value != [] && StrictlyAscending(followUpQuestions.value)
    }

    ghost predicate ResultsStored()
      reads `finalResultsData, `finalTopMatchDetails
    {
      && (finalResultsData.Some? <==> finalTopMatchDetails.Some?)
      && (finalResultsData.Some? ==>
            var r := finalResultsData.value;
            var d := finalTopMatchDetails.value;
            && r != [] && |r| <= TopK && SortedDesc(r)
            && d.rawDisease == r[0].disease && d.rawConfidence == r[0].confidence)
    }

    ghost predicate QuestionsShown()
      reads `questionsAskedForDisplay
    {
      questionsAskedForDisplay.Some? ==> StrictlyAscending(questionsAskedForDisplay.value)
    }

    /** A fresh session holds none of the diagnosis keys. */
    constructor ()
      ensures Valid()
      ensures currentSymptoms == None && currentRiskFactors == None
      ensures followUpQuestions == None && finalResultsData == None
      ensures finalTopMatchDetails == None && questionsAskedForDisplay == None
    {
      currentSymptoms := None;
      currentRiskFactors := None;
      followUpQuestions := None;
      finalResultsData := None;
      finalTopMatchDetails := None;
      questionsAskedForDisplay := None;
    }

    /**
     * The POST branch of `diagnose_form`. `conditions` is the patient's stored
     * pre-existing conditions, which `personalized_advice` reads from the database.
     * A selection that the knowledge base does not match leaves earlier results in place.
     */
    method SubmitSymptoms(symptoms: seq<string>, riskFactors: seq<string>, kb: KnowledgeBase,
                          conditions: Option<string>) returns (outcome: SubmitOutcome)
      requires Valid()
      modifies this
      ensures Valid()
      ensures questionsAskedForDisplay == old(questionsAskedForDisplay)
      ensures symptoms == [] ==> outcome == NoSymptomsSelected && unchanged(this)
      ensures symptoms != [] ==>
        && currentSymptoms == Some(symptoms) && currentRiskFactors == Some(riskFactors)
        && var results := kb.matches(InitialQuery(symptoms, riskFactors));
           && (NoMatch(results) ==>
                 && outcome == NoInitialMatch
                 && followUpQuestions == old(followUpQuestions)
                 && finalResultsData == old(finalResultsData)
                 && finalTopMatchDetails == old(finalTopMatchDetails))
           && (!NoMatch(results) ==>
                 var top := Rank(results.value);
                 && (Pool(kb, top) != {} ==>
                       && outcome == AwaitingFollowUp
                       && followUpQuestions.Some?
                       && StrictlyAscending(followUpQuestions.value)
                       && (forall q :: q in followUpQuestions.value <==> q in Pool(kb, top))
                       && finalResultsData == old(finalResultsData)
                       && finalTopMatchDetails == old(finalTopMatchDetails))
                 && (Pool(kb, top) == {} ==>
                       && outcome == ResultsReady
                       && followUpQuestions == None
                       && finalResultsData == Some(top)
                       && finalTopMatchDetails ==
                            Some(BuildDetails(kb, top[0], symptoms, Notes(conditions, top[0].disease)))))
    {
      if symptoms == [] {
        return NoSymptomsSelected;
      }
      currentSymptoms := Some(symptoms);
      currentRiskFactors := Some(riskFactors);
      var results := kb.matches(InitialQuery(symptoms, riskFactors));
      if NoMatch(results) {
        return NoInitialMatch;
      }
      outcome := RouteFirstPass(kb, Rank(results.value), symptoms, conditions);
    }

    /**
     * The matched branch of the symptom handler (lines 539-602): ask the follow-up
     * questions of the top candidates when there are any, otherwise store the results.
     */
    method RouteFirstPass(kb: KnowledgeBase, top: seq<Candidate>, symptoms: seq<string>,
                          conditions: Option<string>) returns (outcome: SubmitOutcome)
      requires Valid()
      requires top != [] && |top| <= TopK && SortedDesc(top)
      modifies this
      ensures Valid()
      ensures currentSymptoms == old(currentSymptoms) && currentRiskFactors == old(currentRiskFactors)
      ensures questionsAskedForDisplay == old(questionsAskedForDisplay)
      ensures Pool(kb, top) != {} ==>
        && outcome == AwaitingFollowUp
        && followUpQuestions.Some?
        && StrictlyAscending(followUpQuestions.value)
        && (forall q :: q in followUpQuestions.value <==> q in Pool(kb, top))
        && finalResultsData == old(finalResultsData)
        && finalTopMatchDetails == old(finalTopMatchDetails)
      ensures Pool(kb, top) == {} ==>
        && outcome == ResultsReady
        && followUpQuestions == None
        && finalResultsData == Some(top)
        && finalTopMatchDetails ==
             Some(BuildDetails(kb, top[0], symptoms, Notes(conditions, top[0].disease)))
    {
      var questions := AggregateFollowUps(kb, top);
      if questions != [] {
        assert questions[0] in Pool(kb, top);
        followUpQuestions := Some(questions);
        outcome := AwaitingFollowUp;
      } else {
        assert Pool(kb, top) == {};
        followUpQuestions := None;
        StoreResults(kb, top, symptoms, conditions);
        outcome := ResultsReady;
      }
    }

    /**
     * The block both handlers share (lines 567-601 and 642-686): store the ranked
     * candidates and the details of the first one, with the advice note for the patient's
     * conditions.
     */
    method StoreResults(kb: KnowledgeBase, top: seq<Candidate>, symptoms: seq<string>,
                        conditions: Option<string>)
      requires top != [] && |top| <= TopK && SortedDesc(top)
      modifies this
      ensures finalResultsData == Some(top)
      ensures finalTopMatchDetails ==
                Some(BuildDetails(kb, top[0], symptoms, Notes(conditions, top[0].disease)))
      ensures currentSymptoms == old(currentSymptoms) && currentRiskFactors == old(currentRiskFactors)
      ensures followUpQuestions == old(followUpQuestions)
      ensures questionsAskedForDisplay == old(questionsAskedForDisplay)
    {
      finalResultsData := Some(top);
      finalTopMatchDetails := None;
      var note := PersonalizedAdvice(conditions, top[0].disease);
      finalTopMatchDetails := Some(BuildDetails(kb, top[0], symptoms, note));
    }

    /**
     * The POST branch of `ask_followup`: collect the yes/no answers to the pending
     * questions from `form`, query again with the stored symptoms and risk factors, and
     * store the refined results. A refined query that finds nothing changes nothing; in
     * particular it does not fall back to the first-pass candidates.
     */
    method SubmitAnswers(form: map<string, string>, kb: KnowledgeBase, conditions: Option<string>)
      returns (outcome: FollowUpOutcome)
      requires Valid()
      modifies this
      ensures Valid()
      ensures old(followUpQuestions).None? ==> outcome == NoPendingQuestions && unchanged(this)
      ensures old(followUpQuestions).Some? ==>
        var offered := old(followUpQuestions).value;
        var symptoms := old(currentSymptoms).GetOr([]);
        var answers := Answered(offered, form);
        var results := kb.matches(RefinedQuery(symptoms, old(currentRiskFactors).GetOr([]), answers));
        && (NoMatch(results) ==> outcome == NoRefinedMatch && unchanged(this))
        && (!NoMatch(results) ==>
              var top := Rank(results.value);
              && outcome == RefinedResultsReady
              && finalResultsData == Some(top)
              && finalTopMatchDetails ==
                   Some(BuildDetails(kb, top[0], symptoms, Notes(conditions, top[0].disease)))
              && questionsAskedForDisplay == Some(offered)
              && followUpQuestions == None
              && currentSymptoms == old(currentSymptoms)
              && currentRiskFactors == old(currentRiskFactors))
    {
      if followUpQuestions.None? || followUpQuestions.value == [] {
        return NoPendingQuestions;
      }
      var offered := followUpQuestions.value;
      var answers := CollectAnswers(offered, form);
      var symptoms := currentSymptoms.GetOr([]);
      var results := kb.matches(RefinedQuery(symptoms, currentRiskFactors.GetOr([]), answers));
      if NoMatch(results) {
        return NoRefinedMatch;
      }
      StoreRefinedResults(kb, Rank(results.value), symptoms, conditions, offered);
      outcome := RefinedResultsReady;
    }

    /**
     * The tail of the follow-up handler (lines 642-693): store the refined results, keep
     * the questions that were asked for the results page and clear the pending ones.
     */
    method StoreRefinedResults(kb: KnowledgeBase, top: seq<Candidate>, symptoms: seq<string>,
                               conditions: Option<string>, offered: seq<string>)
      requires Valid() && StrictlyAscending(offered)
      requires top != [] && |top| <= TopK && SortedDesc(top)
      modifies this
      ensures Valid()
      ensures finalResultsData == Some(top)
      ensures finalTopMatchDetails ==
                Some(BuildDetails(kb, top[0], symptoms, Notes(conditions, top[0].disease)))
      ensures questionsAskedForDisplay == Some(offered) && followUpQuestions == None
      ensures currentSymptoms == old(currentSymptoms) && currentRiskFactors == old(currentRiskFactors)
    {
      StoreResults(kb, top, symptoms, conditions);
      questionsAskedForDisplay := Some(offered);
      followUpQuestions := None;
    }
  }

  /**
   * The history row written with a report records the confidence of the first stored
   * candidate: the details and the ranking never disagree about it.
   */
  lemma HistoryKeepsTopConfidence(s: DiagnosisSession, userId: int, reportFile: string)
    requires s.Valid() && s.finalTopMatchDetails.Some?
    ensures s.finalResultsData.Some? && s.finalResultsData.value != []
    ensures HistoryRecord(userId, s.finalTopMatchDetails.value, reportFile).confidence
            == s.finalResultsData.value[0].confidence
    ensures HistoryRecord(userId, s.finalTopMatchDetails.value, reportFile).diagnosis
            == s.finalResultsData.value[0].disease
  {
  }

  /** The match table of the walk-through: two first-pass candidates, flu alone after a "yes". */
  function FluMatchTable(goal: string): Option<seq<Candidate>> {
    if goal == RefinedQuery(["fever", "cough"], [], [Answer("does_fever_exceed_102", "yes")])
    then Some([Candidate("flu", 88.0)])
    else if goal == InitialQuery(["fever", "cough"], [])
    then Some([Candidate("flu", 72.0), Candidate("cold", 65.0)])
    else None
  }

  /** The question table of the walk-through: one question, for flu. */
  function FluQuestionTable(goal: string): Option<seq<string>> {
    if goal == FollowUpQuery("flu") then Some(["does_fever_exceed_102"]) else None
  }

  function NoFact<T>(goal: string): Option<T> {
    None
  }

  /** A knowledge base for the walk-through; it knows no tests, treatments or advice. */
  function FluKnowledgeBase(): KnowledgeBase {
    KnowledgeBase(FluMatchTable, FluQuestionTable, NoFact, NoFact, NoFact)
  }

  /** The knowledge base's answers to the two match goals of the walk-through. */
  lemma FluMatches()
    ensures FluKnowledgeBase().matches(InitialQuery(["fever", "cough"], []))
            == Some([Candidate("flu", 72.0), Candidate("cold", 65.0)])
    ensures FluKnowledgeBase().matches(
              RefinedQuery(["fever", "cough"], [], [Answer("does_fever_exceed_102", "yes")]))
            == Some([Candidate("flu", 88.0)])
  {
    RefinedQueryDiffersFromInitial(["fever", "cough"], [], [Answer("does_fever_exceed_102", "yes")]);
  }

  /** Flu keeps its lead over cold. */
  lemma FluRanking()
    ensures Rank([Candidate("flu", 72.0), Candidate("cold", 65.0)])
            == [Candidate("flu", 72.0), Candidate("cold", 65.0)]
  {
    var top := [Candidate("flu", 72.0), Candidate("cold", 65.0)];
    assert top[1..] == [Candidate("cold", 65.0)];
    assert SortDesc(top[1..]) == [Candidate("cold", 65.0)];
    assert SortDesc(top) == top;
  }

  /** Only flu has a question: cold's goal is a different, longer string. */
  lemma FluQuestions()
    ensures QuestionsFor(FluKnowledgeBase(), "cold") == []
    ensures QuestionsFor(FluKnowledgeBase(), "flu") == ["does_fever_exceed_102"]
  {
    assert |FollowUpQuery("cold")| == |FollowUpQuery("flu")| + 1;
  }

  /** Two candidates of which only the first has a question pool exactly that question. */
  lemma PoolOfOneAsker(kb: KnowledgeBase, x: Candidate, y: Candidate, q: string)
    requires QuestionsFor(kb, x.disease) == [q] && QuestionsFor(kb, y.disease) == []
    ensures Pool(kb, [x, y]) == {q}
  {
    assert [x, y][..1] == [x] && [x][..0] == [];
    assert Elements([q]) == {q};
    assert Elements([]) == {};
    assert Pool(kb, [x]) == Pool(kb, []) + Elements(QuestionsFor(kb, x.disease)) == {q};
    assert Pool(kb, [x, y]) == Pool(kb, [x]) + Elements(QuestionsFor(kb, y.disease));
  }

  /** First half of the walk-through: flu and cold are ranked and flu's question is asked. */
  method FluFirstPass(kb: KnowledgeBase, symptoms: seq<string>, question: string)
    returns (s: DiagnosisSession, first: SubmitOutcome)
    requires symptoms != []
    requires kb.matches(InitialQuery(symptoms, [])) == Some([Candidate("flu", 72.0), Candidate("cold", 65.0)])
    requires QuestionsFor(kb, "flu") == [question] && QuestionsFor(kb, "cold") == []
    ensures fresh(s) && s.Valid() && first == AwaitingFollowUp
    ensures s.followUpQuestions == Some([question])
    ensures s.currentSymptoms == Some(symptoms) && s.currentRiskFactors == Some([])
  {
    s := new DiagnosisSession();
    FluRanking();
    PoolOfOneAsker(kb, Candidate("flu", 72.0), Candidate("cold", 65.0), question);
    first := s.SubmitSymptoms(symptoms, [], kb, None);
    AscendingUnique(s.followUpQuestions.value, [question]);
  }

  /** Second half of the walk-through: a "yes" to flu's question leaves flu alone at 88. */
  method FluSecondPass(s: DiagnosisSession, kb: KnowledgeBase, symptoms: seq<string>, question: string)
    returns (second: FollowUpOutcome, shown: string, confidence: real)
    requires s.Valid() && s.followUpQuestions == Some([question])
    requires s.currentSymptoms == Some(symptoms) && s.currentRiskFactors == Some([])
    requires kb.matches(RefinedQuery(symptoms, [], [Answer(question, "yes")])) == Some([Candidate("flu", 88.0)])
    modifies s
    ensures second == RefinedResultsReady && shown == "Flu" && confidence == 88.0
  {
    var form := map[question := "yes"];
    assert Answered([question], form) == [Answer(question, "yes")];
    assert Rank([Candidate("flu", 88.0)]) == [Candidate("flu", 88.0)];
    DisplayFlu();
    second := s.SubmitAnswers(form, kb, None);
    shown := s.finalTopMatchDetails.value.diseaseDisplay;
    confidence := s.finalResultsData.value[0].confidence;
  }

  /**
   * The walk-through, for any knowledge base that answers as `FluKnowledgeBase` does
   * (there with the symptoms fever and cough and the question `does_fever_exceed_102`):
   * flu is ranked above cold, the single question about flu is asked, a "yes" answer is
   * carried into the refined goal, and the refined result is shown as "Flu" at 88.
   */
  method FluWalkThrough(kb: KnowledgeBase, symptoms: seq<string>, question: string)
    returns (first: SubmitOutcome, asked: seq<string>, second: FollowUpOutcome, shown: string, confidence: real)
    requires symptoms != []
    requires kb.matches(InitialQuery(symptoms, [])) == Some([Candidate("flu", 72.0), Candidate("cold", 65.0)])
    requires kb.matches(RefinedQuery(symptoms, [], [Answer(question, "yes")])) == Some([Candidate("flu", 88.0)])
    requires QuestionsFor(kb, "flu") == [question] && QuestionsFor(kb, "cold") == []
    ensures first == AwaitingFollowUp && asked == [question]
    ensures second == RefinedResultsReady && shown == "Flu" && confidence == 88.0
  {
    var s;
    s, first := FluFirstPass(kb, symptoms, question);
    asked := s.followUpQuestions.value;
    second, shown, confidence := FluSecondPass(s, kb, symptoms, question);
  }
}
