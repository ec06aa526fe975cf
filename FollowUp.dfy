/**
 * The follow-up question aggregator (app.py lines 538-550 and 555-556) and the answer
 * filter of the second pass (lines 619-623).
 */
module FollowUp {
  import opened Wrappers
  import opened Text
  import opened Ranking
  import opened KnowledgeBase

  /**
   * The questions one diagnosis contributes: its `follow_up_question` solutions, or none
   * when the lookup fails or comes back empty.
   */
  function QuestionsFor(kb: KnowledgeBase, disease: string): (r: seq<string>)
    ensures forall qs :: kb.followUps(FollowUpQuery(disease)) == Some(qs) ==> r == qs
    ensures kb.followUps(FollowUpQuery(disease)).None? ==> r == []
  {
    match kb.followUps(FollowUpQuery(disease))
    case Some(qs) => qs
    case None => []
  }

  /** Every question any of `top` contributes, the content of the Python `set`. */
  ghost function Pool(kb: KnowledgeBase, top: seq<Candidate>): (r: set<string>)
    ensures top == [] ==> r == {}
    ensures forall k {:trigger top[k]} :: 0 <= k < |top| ==> Elements(QuestionsFor(kb, top[k].disease)) <= r
  {
    if top == [] then {}
    else Pool(kb, top[..|top| - 1]) + Elements(QuestionsFor(kb, top[|top| - 1].disease))
  }

  ghost function Elements(xs: seq<string>): set<string> {
    set x | x in xs
  }

  /** Extending the ranked prefix by one candidate adds that candidate's questions. */
  lemma PoolStep(kb: KnowledgeBase, top: seq<Candidate>, i: nat)
    requires i < |top|
    ensures Pool(kb, top[..i + 1]) == Pool(kb, top[..i]) + Elements(QuestionsFor(kb, top[i].disease))
  {
    assert top[..i + 1][..i] == top[..i];
  }

  /** A question is pooled exactly when one of the candidates' lookups returned it. */
  lemma {:induction false} PoolMembers(kb: KnowledgeBase, top: seq<Candidate>, q: string)
    ensures q in Pool(kb, top) <==> exists i :: 0 <= i < |top| && q in QuestionsFor(kb, top[i].disease)
  {
    if top != [] {
      var init := top[..|top| - 1];
      PoolMembers(kb, init, q);
      if q in Pool(kb, init) {
        var i :| 0 <= i < |init| && q in QuestionsFor(kb, init[i].disease);
        assert top[i] == init[i];
      }
      if exists i :: 0 <= i < |top| && q in QuestionsFor(kb, top[i].disease) {
        var i :| 0 <= i < |top| && q in QuestionsFor(kb, top[i].disease);
        if i < |init| { assert init[i] == top[i]; }
      }
    }
  }

  /** The pool of a concatenation is the union of the pools. */
  lemma {:induction false} PoolAppend(kb: KnowledgeBase, a: seq<Candidate>, b: seq<Candidate>)
    ensures Pool(kb, a + b) == Pool(kb, a) + Pool(kb, b)
  {
    if b == [] {
      assert a + b == a;
    } else {
      var init := b[..|b| - 1];
      PoolAppend(kb, a, init);
      assert (a + b)[..|a + b| - 1] == a + init;
      assert (a + b)[|a + b| - 1] == b[|b| - 1];
    }
  }

  /** A candidate whose lookup fails or is empty contributes nothing: dropping it changes nothing. */
  lemma SilentCandidateContributesNothing(kb: KnowledgeBase, top: seq<Candidate>, k: nat)
    requires k < |top|
    requires kb.followUps(FollowUpQuery(top[k].disease)).None?
          || kb.followUps(FollowUpQuery(top[k].disease)) == Some([])
    ensures Pool(kb, top) == Pool(kb, top[..k] + top[k + 1..])
  {
    var front, back := top[..k], top[k + 1..];
    assert top == front + [top[k]] + back;
    PoolAppend(kb, front + [top[k]], back);
    PoolAppend(kb, front, [top[k]]);
    PoolAppend(kb, front, back);
    assert [top[k]][..0] == [];
    assert Pool(kb, [top[k]]) == {};
  }

  /** Puts `q` into its place in a strictly ascending list that does not hold it yet. */
  function InsertAscending(q: string, r: seq<string>): (res: seq<string>)
    ensures |res| == |r| + 1
    ensures forall x :: x in res <==> x == q || x in r
  {
    if r == [] || Less(q, r[0]) then [q] + r
    else [r[0]] + InsertAscending(q, r[1..])
  }

  lemma {:induction false} InsertAscendingSorted(q: string, r: seq<string>)
    requires StrictlyAscending(r) && q !in r
    ensures StrictlyAscending(InsertAscending(q, r))
  {
    if r == [] {
    } else if Less(q, r[0]) {
      forall j | 0 < j < |r| ensures Less(q, r[j]) {
        LessTransitive(q, r[0], r[j]);
      }
    } else {
      LessTotal(q, r[0]);
      InsertAscendingSorted(q, r[1..]);
      var rest := InsertAscending(q, r[1..]);
      forall x | x in rest ensures Less(r[0], x) {
        if x != q {
          var j :| 1 <= j < |r| && r[j] == x;
        }
      }
      assert InsertAscending(q, r) == [r[0]] + rest;
    }
  }

  /** `sorted(list(s))`: the questions of the set in ascending order. */
  method SortedList(s: set<string>) returns (r: seq<string>)
    ensures StrictlyAscending(r)
    ensures forall q :: q in r <==> q in s
  {
    var rest := s;
    r := [];
    while rest != {}
      invariant rest <= s
      invariant StrictlyAscending(r)
      invariant forall q :: q in r <==> q in s && q !in rest
      decreases rest
    {
      var q :| q in rest;
      InsertAscendingSorted(q, r);
      r := InsertAscending(q, r);
      rest := rest - {q};
    }
  }

  lemma HeadIsElement(a: seq<string>)
    ensures a != [] ==> a[0] in a
  {
  }

  /** Two strictly ascending lists with the same elements are the same list. */
  lemma {:induction false} AscendingUnique(a: seq<string>, b: seq<string>)
    requires StrictlyAscending(a) && StrictlyAscending(b)
    requires forall x :: x in a <==> x in b
    ensures a == b
  {
    HeadIsElement(a);
    HeadIsElement(b);
    if a != [] && b != [] {
      assert a[0] in b && b[0] in a;
      if a[0] != b[0] {
        var i :| 0 < i < |b| && b[i] == a[0];
        var j :| 0 < j < |a| && a[j] == b[0];
        LessTransitive(a[0], b[0], a[0]);
      }
      assert a == [a[0]] + a[1..] && b == [b[0]] + b[1..];
      forall x ensures x in a[1..] <==> x in b[1..] {
        if x in a[1..] {
          var i :| 1 <= i < |a| && a[i] == x;
          if x == a[0] { LessIrreflexive(x); }
          assert x in b && x != b[0];
        }
        if x in b[1..] {
          var i :| 1 <= i < |b| && b[i] == x;
          if x == b[0] { LessIrreflexive(x); }
          assert x in a && x != a[0];
        }
      }
      AscendingUnique(a[1..], b[1..]);
      assert a == [a[0]] + a[1..] && b == [b[0]] + b[1..];
    }
  }

  /**
   * The aggregation of lines 538-550 and 556: ask the knowledge base for the follow-up
   * questions of every ranked candidate, gather them in a set, return them sorted.
   */
  method AggregateFollowUps(kb: KnowledgeBase, top: seq<Candidate>) returns (questions: seq<string>)
    ensures StrictlyAscending(questions)
    ensures forall q :: q in questions <==> q in Pool(kb, top)
  {
    var found: set<string> := {};
    var i := 0;
    while i < |top|
      invariant 0 <= i <= |top|
      invariant found == Pool(kb, top[..i])
    {
      var lookup := kb.followUps(FollowUpQuery(top[i].disease));
      PoolStep(kb, top, i);
      if lookup.Some? && lookup.value != [] {
        found := AddQuestions(found, lookup.value);
      } else {
        assert Elements(QuestionsFor(kb, top[i].disease)) == {};
      }
      i := i + 1;
    }
    assert top[..|top|] == top;
    questions := SortedList(found);
  }

  /** The inner loop of lines 546-549: add each returned question to the set. */
  method AddQuestions(found: set<string>, qs: seq<string>) returns (r: set<string>)
    ensures r == found + Elements(qs)
  {
    r := found;
    var j := 0;
    while j < |qs|
      invariant 0 <= j <= |qs|
      invariant r == found + Elements(qs[..j])
    {
      ElementsStep(qs, j);
      r := r + {qs[j]};
      j := j + 1;
    }
    assert qs[..|qs|] == qs;
  }

  lemma ElementsStep(qs: seq<string>, j: nat)
    requires j < |qs|
    ensures Elements(qs[..j + 1]) == Elements(qs[..j]) + {qs[j]}
  {
    assert qs[..j + 1] == qs[..j] + [qs[j]];
  }

  /** A form value the controller accepts as an answer. */
  predicate IsYesNo(v: string): (b: bool)
    ensures b <==> v in {"yes", "no"}
  {
    v == "yes" || v == "no"
  }

  /** The answers kept from `form`: the offered questions answered `yes` or `no`, in offered order. */
  function Answered(questions: seq<string>, form: map<string, string>): (r: seq<Answer>)
    ensures |r| <= |questions|
    ensures forall i :: 0 <= i < |r| ==>
      r[i].question in questions && r[i].question in form && form[r[i].question] == r[i].reply
      && IsYesNo(r[i].reply)
  {
    if questions == [] then []
    else
      var q := questions[|questions| - 1];
      Answered(questions[..|questions| - 1], form)
        + (if q in form && IsYesNo(form[q]) then [Answer(q, form[q])] else [])
  }

  /** An answer is kept exactly when its question was offered and the form holds `yes` or `no` for it. */
  lemma {:induction false} AnsweredMembers(questions: seq<string>, form: map<string, string>, a: Answer)
    ensures a in Answered(questions, form)
        <==> a.question in questions && a.question in form && form[a.question] == a.reply && IsYesNo(a.reply)
  {
    if questions != [] {
      var init := questions[..|questions| - 1];
      AnsweredMembers(init, form, a);
      assert questions == init + [questions[|questions| - 1]];
    }
  }

  /** The questions of the answers, in order. */
  function AnsweredQuestions(answers: seq<Answer>): (r: seq<string>)
    ensures |r| == |answers|
    ensures forall i :: 0 <= i < |answers| ==> r[i] == answers[i].question
  {
    if answers == [] then [] else AnsweredQuestions(answers[..|answers| - 1]) + [answers[|answers| - 1].question]
  }

  /** Offered in ascending order, the answers come out in ascending order of their questions. */
  lemma {:induction false} AnsweredKeepsOrder(questions: seq<string>, form: map<string, string>)
    requires StrictlyAscending(questions)
    ensures StrictlyAscending(AnsweredQuestions(Answered(questions, form)))
  {
    if questions != [] {
      var init := questions[..|questions| - 1];
      var last := questions[|questions| - 1];
      AnsweredKeepsOrder(init, form);
      var qs := AnsweredQuestions(Answered(init, form));
      forall i | 0 <= i < |qs| ensures Less(qs[i], last) {
        AnsweredMembers(init, form, Answered(init, form)[i]);
      }
    }
  }

  /** The loop of lines 619-623: walk the offered questions and keep the yes/no answers. */
  method CollectAnswers(questions: seq<string>, form: map<string, string>) returns (answers: seq<Answer>)
    ensures answers == Answered(questions, form)
    ensures forall a :: a in answers ==> a.question in questions && IsYesNo(a.reply)
  {
    answers := [];
    var i := 0;
    while i < |questions|
      invariant 0 <= i <= |questions|
      invariant answers == Answered(questions[..i], form)
    {
      var q := questions[i];
      assert questions[..i + 1][..i] == questions[..i];
      if q in form && IsYesNo(form[q]) {
        answers := answers + [Answer(q, form[q])];
      }
      i := i + 1;
    }
    assert questions[..|questions|] == questions;
    forall a | a in answers ensures a.question in questions && IsYesNo(a.reply) {
      AnsweredMembers(questions, form, a);
    }
  }
}
