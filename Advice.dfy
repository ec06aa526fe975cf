/**
 * The personalised-advice overlay `personalized_advice` (app.py lines 293-303): a fixed,
 * ordered table of rules over the patient's recorded conditions and the diagnosis atom.
 * The user-database read is replaced by its result, the `medical_conditions` field
 * (`None` when there is no user row or the field is empty).
 */
module Advice {
  import opened Wrappers
  import opened Text

  const NotesHeading: string := "\nPersonalized Notes:\n- "
  const LineSeparator: string := "\n- "
  const FallbackNote: string := "\nNo specific personalized notes. Follow general advice."

  /** What a rule asks of the (lower-cased) diagnosis text. */
  datatype Guard =
    | Always
    | Unless(word: string)            // fires only if the diagnosis does not contain `word`
    | OnlyWithAny(words: seq<string>) // fires only if the diagnosis contains one of `words`

  /** A rule fires when the conditions text contains `condition` and the guard holds. */
  datatype Rule = Rule(condition: string, guard: Guard, line: string)

  /** The rule table, in the order the source tests it. */
  const Rules: seq<Rule> := [
    Rule("diabetes", Unless("sugar"), "With diabetes, monitor blood sugar."),
    Rule("hypertension", Always, "With hypertension, track blood pressure."),
    Rule("asthma", OnlyWithAny(["breath", "wheezing"]), "With asthma, keep inhaler handy.")
  ]

  ghost predicate GuardHolds(g: Guard, diagnosis: string) {
    match g
    case Always => true
    case Unless(w) => !IsInfix(w, diagnosis)
    case OnlyWithAny(ws) => exists i :: 0 <= i < |ws| && IsInfix(ws[i], diagnosis)
  }

  ghost predicate Fires(r: Rule, conditions: string, diagnosis: string) {
    IsInfix(r.condition, conditions) && GuardHolds(r.guard, diagnosis)
  }

  /** The lines of the rules that fire, in table order. */
  ghost function FiringLines(rules: seq<Rule>, conditions: string, diagnosis: string): seq<string> {
    if rules == [] then []
    else
      var first := if Fires(rules[0], conditions, diagnosis) then [rules[0].line] else [];
      first + FiringLines(rules[1..], conditions, diagnosis)
  }

  /**
   * Whether the rules are consulted at all: not without recorded conditions, not for an empty
   * text, not for `none` in any letter case, and for every other text.
   */
  predicate HasConditions(conditions: Option<string>): (b: bool)
    ensures conditions.None? ==> !b
    ensures conditions == Some("") ==> !b
    ensures conditions.Some? && Lower(conditions.value) == "none" ==> !b
    ensures conditions.Some? && |conditions.value| > 0 && Lower(conditions.value) != "none" ==> b
  {
    conditions.Some? && conditions.value != "" && Lower(conditions.value) != "none"
  }

  /** The note text for a list of advice lines: the fallback for none, else a heading and every line. */
  function Render(lines: seq<string>): (r: string)
    ensures lines == [] ==> r == FallbackNote
    ensures lines != [] ==> |r| >= |NotesHeading| && r[..|NotesHeading|] == NotesHeading
    ensures forall k :: 0 <= k < |lines| ==> IsInfix(lines[k], r)
  {
    assert forall k :: 0 <= k < |lines| ==> IsInfix(lines[k], NotesHeading + Join(LineSeparator, lines)) by {
      forall k | 0 <= k < |lines|
        ensures IsInfix(lines[k], NotesHeading + Join(LineSeparator, lines))
      {
        InfixOfConcat(lines[k], NotesHeading, Join(LineSeparator, lines));
      }
    }
    if lines != [] then NotesHeading + Join(LineSeparator, lines) else FallbackNote
  }

  /** The overlay, stated over the rule table: either the fallback line or a headed list of notes. */
  ghost function Notes(conditions: Option<string>, diagnosis: string): (r: string)
    ensures r == FallbackNote || (|r| >= |NotesHeading| && r[..|NotesHeading|] == NotesHeading)
  {
    Render(if HasConditions(conditions)
           then FiringLines(Rules, Lower(conditions.value), Lower(diagnosis))
           else [])
  }

  /** `personalized_advice`: test the three rules in turn, appending the line of each that fires. */
  method PersonalizedAdvice(conditions: Option<string>, diagnosis: string) returns (note: string)
    ensures note == Notes(conditions, diagnosis)
  {
    var adviceList: seq<string> := [];
    if HasConditions(conditions) {
      var cond := Lower(conditions.value);
      var diag := Lower(diagnosis);
      if Contains(cond, "diabetes") && !Contains(diag, "sugar") {
        adviceList := adviceList + [Rules[0].line];
      }
      if Contains(cond, "hypertension") {
        adviceList := adviceList + [Rules[1].line];
      }
      if Contains(cond, "asthma") && (Contains(diag, "breath") || Contains(diag, "wheezing")) {
        adviceList := adviceList + [Rules[2].line];
      }
      RulesAsWritten(cond, diag);
      assert adviceList == FiringLines(Rules, cond, diag);
    }
    if adviceList != [] {
      note := NotesHeading + Join(LineSeparator, adviceList);
    } else {
      note := FallbackNote;
    }
  }

  /** The table spelled out rule by rule, as the source tests it. */
  lemma RulesAsWritten(cond: string, diag: string)
    ensures FiringLines(Rules, cond, diag)
         == (if IsInfix("diabetes", cond) && !IsInfix("sugar", diag)
             then ["With diabetes, monitor blood sugar."] else [])
          + (if IsInfix("hypertension", cond)
             then ["With hypertension, track blood pressure."] else [])
          + (if IsInfix("asthma", cond) && (IsInfix("breath", diag) || IsInfix("wheezing", diag))
             then ["With asthma, keep inhaler handy."] else [])
  {
    var ws := ["breath", "wheezing"];
    assert GuardHolds(OnlyWithAny(ws), diag) <==> IsInfix("breath", diag) || IsInfix("wheezing", diag) by {
      if IsInfix("breath", diag) { assert IsInfix(ws[0], diag); }
      if IsInfix("wheezing", diag) { assert IsInfix(ws[1], diag); }
    }
    var r1 := Rules[1..];
    var r2 := r1[1..];
    assert r1 == [Rules[1], Rules[2]] && r2 == [Rules[2]] && r2[1..] == [];
    var l0 := if Fires(Rules[0], cond, diag) then [Rules[0].line] else [];
    var l1 := if Fires(Rules[1], cond, diag) then [Rules[1].line] else [];
    var l2 := if Fires(Rules[2], cond, diag) then [Rules[2].line] else [];
    assert FiringLines(r2, cond, diag) == l2 + [];
    assert FiringLines(r1, cond, diag) == l1 + (l2 + []);
    assert FiringLines(Rules, cond, diag) == l0 + (l1 + (l2 + []));
    assert l0 + (l1 + (l2 + [])) == l0 + l1 + l2;
  }

  /** Without recorded conditions, or with `none` in any letter case, only the fallback line comes back. */
  lemma NoConditionsGiveFallback(conditions: Option<string>, diagnosis: string)
    requires conditions.None? || conditions == Some("") || Lower(conditions.value) == "none"
    ensures Notes(conditions, diagnosis) == FallbackNote
  {
  }

  /** The fallback line comes back exactly when no rule applies. */
  lemma FallbackIffNothingFires(conditions: Option<string>, diagnosis: string)
    ensures Notes(conditions, diagnosis) == FallbackNote
        <==> (!HasConditions(conditions)
              || FiringLines(Rules, Lower(conditions.value), Lower(diagnosis)) == [])
  {
    var lines := if HasConditions(conditions)
                 then FiringLines(Rules, Lower(conditions.value), Lower(diagnosis)) else [];
    if lines != [] {
      var text := NotesHeading + Join(LineSeparator, lines);
      assert text[21] == NotesHeading[21] == '-';
      assert FallbackNote[21] == 'i';
    }
  }

  /** A firing line is one of the table's lines, and a table line fires only through its rule. */
  lemma {:induction false} FiringLinesMembers(rules: seq<Rule>, conditions: string, diagnosis: string, k: nat)
    requires k < |rules|
    requires forall i, j :: 0 <= i < j < |rules| ==> rules[i].line != rules[j].line
    ensures rules[k].line in FiringLines(rules, conditions, diagnosis) <==> Fires(rules[k], conditions, diagnosis)
  {
    var rest := FiringLines(rules[1..], conditions, diagnosis);
    if k == 0 {
      if rules[0].line in rest {
        NotFromOtherRules(rules[1..], conditions, diagnosis, rules[0].line);
      }
    } else {
      FiringLinesMembers(rules[1..], conditions, diagnosis, k - 1);
    }
  }

  /** A line that no rule of `rules` carries does not fire. */
  lemma {:induction false} NotFromOtherRules(rules: seq<Rule>, conditions: string, diagnosis: string, line: string)
    requires line in FiringLines(rules, conditions, diagnosis)
    ensures exists i :: 0 <= i < |rules| && rules[i].line == line
  {
    if rules[0].line != line || !Fires(rules[0], conditions, diagnosis) {
      NotFromOtherRules(rules[1..], conditions, diagnosis, line);
      var i :| 0 <= i < |rules[1..]| && rules[1..][i].line == line;
      assert rules[i + 1].line == line;
    }
  }

  /**
   * The overlay shows the line of every rule that fires and no line of a rule that does not
   * (given recorded conditions).
   */
  lemma RuleLineShownIffFires(conditions: Option<string>, diagnosis: string, k: nat)
    requires HasConditions(conditions) && k < |Rules|
    ensures Rules[k].line in FiringLines(Rules, Lower(conditions.value), Lower(diagnosis))
        <==> Fires(Rules[k], Lower(conditions.value), Lower(diagnosis))
    ensures Fires(Rules[k], Lower(conditions.value), Lower(diagnosis))
        ==> IsInfix(Rules[k].line, Notes(conditions, diagnosis))
  {
    var cl, dl := Lower(conditions.value), Lower(diagnosis);
    FiringLinesMembers(Rules, cl, dl, k);
    var lines := FiringLines(Rules, cl, dl);
    if Fires(Rules[k], cl, dl) {
      var p :| 0 <= p < |lines| && lines[p] == Rules[k].line;
      assert IsInfix(lines[p], Join(LineSeparator, lines));
      InfixOfConcat(Rules[k].line, NotesHeading, Join(LineSeparator, lines));
    }
  }

  /** A conditions text containing `asthma` is never `none`, so the rules are consulted. */
  lemma AsthmaMeansConditions(conditions: string)
    requires IsInfix("asthma", Lower(conditions))
    ensures HasConditions(Some(conditions))
  {
    assert |Lower(conditions)| >= 6 by {
      var i :| InfixAt("asthma", Lower(conditions), i);
    }
  }

  /** An asthma patient with a wheezing or breathing diagnosis is told to keep the inhaler handy. */
  lemma AsthmaWithWheezing(conditions: string, diagnosis: string)
    requires IsInfix("asthma", Lower(conditions))
    requires IsInfix("wheezing", Lower(diagnosis)) || IsInfix("breath", Lower(diagnosis))
    ensures IsInfix("With asthma, keep inhaler handy.", Notes(Some(conditions), diagnosis))
  {
    AsthmaMeansConditions(conditions);
    var ws := ["breath", "wheezing"];
    if IsInfix("breath", Lower(diagnosis)) {
      assert IsInfix(ws[0], Lower(diagnosis));
    } else {
      assert IsInfix(ws[1], Lower(diagnosis));
    }
    RuleLineShownIffFires(Some(conditions), diagnosis, 2);
  }
}
