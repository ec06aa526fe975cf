/**
 * The knowledge-base adapter: the Prolog goals the controller builds as text
 * (app.py lines 529-535, 545, 572-582, 628-635) and the engine behind `query_prolog`
 * (lines 309-346), which the model takes as an oracle from goal text to decoded answer.
 */
module KnowledgeBase {
  import opened Wrappers
  import opened Text
  import opened Ranking

  /** A `treatment(D, T)` binding: one atom, or a list of atoms. */
  datatype Treatment = Single(item: string) | Several(items: seq<string>)

  /** A follow-up answer kept for the refined query: the question text and `yes` or `no`. */
  datatype Answer = Answer(question: string, reply: string)

  /**
   * The engine, one oracle per goal shape, each applied to the goal text the controller
   * sends. `None` stands for every way `query_prolog` yields nothing usable: the knowledge
   * base file is missing, consulting it or running the goal raised, the goal had no solution,
   * or the solution lacks the variable the controller reads.
   */
  datatype KnowledgeBase = KnowledgeBase(
    matches: string -> Option<seq<Candidate>>,
    followUps: string -> Option<seq<string>>,
    test: string -> Option<string>,
    treatment: string -> Option<Treatment>,
    advice: string -> Option<string>)

  /**
   * `not (query_results and query_results[0]['Results'])`: the engine failed or found no
   * candidate. Both lead to the same "no match" branch of the controller.
   */
  predicate NoMatch(r: Option<seq<Candidate>>): (b: bool)
    ensures !b <==> r.Some? && |r.value| > 0
  {
    r.None? || r.value == []
  }

  /** Doubles every single quote, so the text can sit inside a quoted Prolog atom. */
  function EscapeQuotes(s: string): (r: string)
    ensures |r| >= |s|
  {
    if s == [] then []
    else (if s[0] == '\'' then "''" else [s[0]]) + EscapeQuotes(s[1..])
  }

  /** Undoes the quote doubling: every doubled quote stands for one quote. */
  function UnescapeQuotes(s: string): string {
    if s == [] then []
    else if |s| >= 2 && s[0] == '\'' && s[1] == '\'' then "'" + UnescapeQuotes(s[2..])
    else [s[0]] + UnescapeQuotes(s[1..])
  }

  /** The doubling loses nothing: undoubling the quotes gives the question text back. */
  lemma {:induction false} EscapeQuotesRoundTrip(s: string)
    ensures UnescapeQuotes(EscapeQuotes(s)) == s
  {
    if s != [] {
      EscapeQuotesRoundTrip(s[1..]);
      if s[0] == '\'' {
        assert EscapeQuotes(s) == "''" + EscapeQuotes(s[1..]);
        assert ("''" + EscapeQuotes(s[1..]))[2..] == EscapeQuotes(s[1..]);
      } else {
        assert EscapeQuotes(s) == [s[0]] + EscapeQuotes(s[1..]);
        assert ([s[0]] + EscapeQuotes(s[1..]))[1..] == EscapeQuotes(s[1..]);
      }
      assert s == [s[0]] + s[1..];
    }
  }

  /** No quote is left on its own: every quote of the escaped text is one of a doubled pair. */
  ghost predicate QuotesPaired(s: string) {
    if s == [] then true
    else if s[0] == '\'' then |s| >= 2 && s[1] == '\'' && QuotesPaired(s[2..])
    else QuotesPaired(s[1..])
  }

  lemma {:induction false} EscapeQuotesPaired(s: string)
    ensures QuotesPaired(EscapeQuotes(s))
  {
    if s != [] {
      EscapeQuotesPaired(s[1..]);
      var e := EscapeQuotes(s[1..]);
      if s[0] == '\'' {
        assert ("''" + e)[2..] == e;
      } else {
        assert ([s[0]] + e)[1..] == e;
      }
    }
  }

  /**
   * One symptom as a quoted atom, underscores read as spaces: the atom's body is the
   * symptom with every `_` turned into a space, so no underscore is sent.
   */
  function SymptomAtom(s: string): (r: string)
    ensures |r| == |s| + 2 && r[0] == '\'' && r[|r| - 1] == '\''
    ensures forall i :: 0 <= i < |s| ==> r[i + 1] == (if s[i] == '_' then ' ' else s[i])
    ensures '_' !in r
  {
    "'" + ReplaceChar(s, '_', ' ') + "'"
  }

  /** One risk factor: quoted exactly when it holds a space, its text otherwise unchanged. */
  function RiskFactorAtom(rf: string): (r: string)
    ensures ' ' !in rf ==> r == rf
    ensures ' ' in rf ==> |r| == |rf| + 2 && r[0] == '\'' && r[|r| - 1] == '\'' && r[1..|r| - 1] == rf
  {
    if ' ' in rf then "'" + rf + "'" else rf
  }

  /**
   * One answer as the pair `('<question with quotes doubled>',yes)`. Undoubling the quotes
   * of the quoted part gives the question, and the reply closes the term.
   */
  function AnswerTerm(a: Answer): (r: string)
    ensures |r| == |EscapeQuotes(a.question)| + |a.reply| + 5
    ensures r[..2] == "('" && r[|r| - 1] == ')'
    ensures UnescapeQuotes(r[2..|r| - |a.reply| - 3]) == a.question
    ensures r[|r| - |a.reply| - 1..|r| - 1] == a.reply
  {
    var e := EscapeQuotes(a.question);
    var r := "('" + e + "'," + a.reply + ")";
    assert r[2..|r| - |a.reply| - 3] == e;
    assert r[|r| - |a.reply| - 1..|r| - 1] == a.reply;
    EscapeQuotesRoundTrip(a.question);
    r
  }

  /** A Prolog list of already rendered elements, `"[" + ",".join(xs) + "]"`: every element is in it. */
  function PrologList(xs: seq<string>): (r: string)
    ensures |r| >= 2 && r[0] == '[' && r[|r| - 1] == ']'
    ensures forall k :: 0 <= k < |xs| ==> IsInfix(xs[k], r)
  {
    var joined := Join(",", xs);
    assert forall k :: 0 <= k < |xs| ==> IsInfix(xs[k], "[" + joined + "]") by {
      forall k | 0 <= k < |xs|
        ensures IsInfix(xs[k], "[" + joined + "]")
      {
        InfixOfConcat(xs[k], "[", joined);
        InfixOfConcat(xs[k], "[" + joined, "]");
      }
    }
    "[" + joined + "]"
  }

  /** The symptom list: every symptom's atom is in it. */
  function SymptomList(symptoms: seq<string>): (r: string)
    ensures forall k {:trigger SymptomAtom(symptoms[k])} :: 0 <= k < |symptoms| ==> IsInfix(SymptomAtom(symptoms[k]), r)
  {
    var atoms := seq(|symptoms|, i requires 0 <= i < |symptoms| => SymptomAtom(symptoms[i]));
    assert forall k :: 0 <= k < |symptoms| ==> atoms[k] == SymptomAtom(symptoms[k]);
    PrologList(atoms)
  }

  /** The risk factor list: every risk factor's atom is in it. */
  function RiskFactorList(riskFactors: seq<string>): (r: string)
    ensures forall k {:trigger RiskFactorAtom(riskFactors[k])} :: 0 <= k < |riskFactors| ==> IsInfix(RiskFactorAtom(riskFactors[k]), r)
  {
    var atoms := seq(|riskFactors|, i requires 0 <= i < |riskFactors| => RiskFactorAtom(riskFactors[i]));
    assert forall k :: 0 <= k < |riskFactors| ==> atoms[k] == RiskFactorAtom(riskFactors[k]);
    PrologList(atoms)
  }

  /** The answer list: every answer's term is in it; no answers give the literal `[]`. */
  function AnswerList(answers: seq<Answer>): (r: string)
    ensures answers == [] ==> r == "[]"
    ensures forall k {:trigger AnswerTerm(answers[k])} :: 0 <= k < |answers| ==> IsInfix(AnswerTerm(answers[k]), r)
  {
    var terms := seq(|answers|, i requires 0 <= i < |answers| => AnswerTerm(answers[i]));
    assert forall k :: 0 <= k < |answers| ==> terms[k] == AnswerTerm(answers[k]);
    PrologList(terms)
  }

  /** Each text put into a frame `open x sep y sep z tail` occurs in the result. */
  lemma ThreeHolesFilled(x: string, y: string, z: string, open: string, sep: string, tail: string)
    ensures IsInfix(x, open + x + sep + y + sep + z + tail)
    ensures IsInfix(y, open + x + sep + y + sep + z + tail)
    ensures IsInfix(z, open + x + sep + y + sep + z + tail)
  {
    var r := open + x + sep + y + sep + z + tail;
    assert r == open + x + (sep + y + sep + z + tail);
    InfixInMiddle(x, open, sep + y + sep + z + tail);
    assert r == (open + x + sep) + y + (sep + z + tail);
    InfixInMiddle(y, open + x + sep, sep + z + tail);
    assert r == (open + x + sep + y + sep) + z + tail;
    InfixInMiddle(z, open + x + sep + y + sep, tail);
  }

  /** The `symptom_match` goal with an already rendered answer list: all three lists are in it. */
  function MatchGoal(symptoms: seq<string>, riskFactors: seq<string>, answerList: string): (r: string)
    ensures IsInfix(SymptomList(symptoms), r)
    ensures IsInfix(RiskFactorList(riskFactors), r)
    ensures IsInfix(answerList, r)
  {
    var sl, rl := SymptomList(symptoms), RiskFactorList(riskFactors);
    ThreeHolesFilled(sl, rl, answerList, "findall([D, C], symptom_match(", ", ", ", D, C), Results).");
    "findall([D, C], symptom_match(" + sl + ", " + rl + ", " + answerList + ", D, C), Results)."
  }

  /**
   * The second-pass goal: every symptom's atom, every risk factor's atom and every
   * collected answer's term reach it.
   */
  function RefinedQuery(symptoms: seq<string>, riskFactors: seq<string>, answers: seq<Answer>): (r: string)
    ensures forall k {:trigger SymptomAtom(symptoms[k])} :: 0 <= k < |symptoms| ==> IsInfix(SymptomAtom(symptoms[k]), r)
    ensures forall k {:trigger RiskFactorAtom(riskFactors[k])} :: 0 <= k < |riskFactors| ==> IsInfix(RiskFactorAtom(riskFactors[k]), r)
    ensures forall k {:trigger AnswerTerm(answers[k])} :: 0 <= k < |answers| ==> IsInfix(AnswerTerm(answers[k]), r)
  {
    var r := MatchGoal(symptoms, riskFactors, AnswerList(answers));
    assert forall k :: 0 <= k < |symptoms| ==> IsInfix(SymptomAtom(symptoms[k]), r) by {
      forall k | 0 <= k < |symptoms|
        ensures IsInfix(SymptomAtom(symptoms[k]), r)
      {
        InfixTransitive(SymptomAtom(symptoms[k]), SymptomList(symptoms), r);
      }
    }
    assert forall k :: 0 <= k < |riskFactors| ==> IsInfix(RiskFactorAtom(riskFactors[k]), r) by {
      forall k | 0 <= k < |riskFactors|
        ensures IsInfix(RiskFactorAtom(riskFactors[k]), r)
      {
        InfixTransitive(RiskFactorAtom(riskFactors[k]), RiskFactorList(riskFactors), r);
      }
    }
    assert forall k :: 0 <= k < |answers| ==> IsInfix(AnswerTerm(answers[k]), r) by {
      forall k | 0 <= k < |answers|
        ensures IsInfix(AnswerTerm(answers[k]), r)
      {
        InfixTransitive(AnswerTerm(answers[k]), AnswerList(answers), r);
      }
    }
    r
  }

  /** The first-pass goal: the refined goal in which nothing was answered, the literal list `[]`. */
  function InitialQuery(symptoms: seq<string>, riskFactors: seq<string>): (r: string)
    ensures r == RefinedQuery(symptoms, riskFactors, [])
  {
    MatchGoal(symptoms, riskFactors, "[]")
  }

  /** The follow-up goal quotes the disease at a fixed place, so the goal determines the disease. */
  function FollowUpQuery(disease: string): (r: string)
    ensures |r| == |disease| + 49 && r[31..31 + |disease|] == disease
  {
    "findall(Q, follow_up_question('" + disease + "', Q), Questions)."
  }

  /** The test goal quotes the disease at a fixed place. */
  function TestQuery(disease: string): (r: string)
    ensures |r| == |disease| + 24 && r[15..15 + |disease|] == disease
  {
    "requires_test('" + disease + "', Test)."
  }

  /** The treatment goal quotes the disease at a fixed place. */
  function TreatmentQuery(disease: string): (r: string)
    ensures |r| == |disease| + 17 && r[11..11 + |disease|] == disease
  {
    "treatment('" + disease + "', T)."
  }

  /** The advice goal quotes the disease at a fixed place. */
  function AdviceQuery(disease: string): (r: string)
    ensures |r| == |disease| + 14 && r[8..8 + |disease|] == disease
  {
    "advice('" + disease + "', A)."
  }

  /** Different diseases send different follow-up goals. */
  lemma FollowUpQueryInjective(d1: string, d2: string)
    requires FollowUpQuery(d1) == FollowUpQuery(d2)
    ensures d1 == d2
  {
    var q := FollowUpQuery(d1);
    assert |d1| == |d2|;
    assert d1 == q[31..31 + |d1|];
  }

  /** A goal that carries answers is longer than the first-pass goal, so the two never coincide. */
  lemma RefinedQueryDiffersFromInitial(symptoms: seq<string>, riskFactors: seq<string>, answers: seq<Answer>)
    requires answers != []
    ensures |RefinedQuery(symptoms, riskFactors, answers)| > |InitialQuery(symptoms, riskFactors)|
  {
    var terms := seq(|answers|, i requires 0 <= i < |answers| => AnswerTerm(answers[i]));
    assert |terms[0]| >= 5;
    assert |Join(",", terms)| >= |terms[0]|;
  }
}
