# Two-pass diagnostic controller, modelled in Dafny

This project models the diagnosis flow of a Flask medical-diagnosis web application (`app.py`).
The patient ticks symptoms and risk factors. A Prolog knowledge base scores candidate diseases.
The controller keeps the three most confident candidates and asks the follow-up questions those
candidates define. It then re-scores with the yes/no answers and shows the top candidate together with
its test, treatment, general advice and a personalised note. All state lives in the user's session.

What each module covers:

- `Wrappers`: the `Option` type.
- `Text`: the ASCII character classes and the string helpers the controller uses: `lower`, `strip`, `replace`, `in`, `join`, `title`, and lexicographic order.
- `Ranking`: the stable descending sort on confidence and the top-3 slice.
- `KnowledgeBase`: the knowledge base as an oracle, plus the exact goal strings the controller sends to it. Each lookup takes the goal string and returns `None` when the engine fails, finds no solution or leaves the variable unbound.
- `FollowUp`: the set of follow-up questions gathered over the ranked candidates, its sorted list, and the filtering of the submitted answers.
- `Advice`: `personalized_advice`. It is given as a rule table, and a method with the source's three tests is proved equal to that table.
- `Details`: the record of the top candidate, with per-field defaults and display formatting.
- `Report`: the conditions line of the report, the report file name, and the history row.
- `Registration`: the input checks of the registration form.
- `Session`: the session as a class `DiagnosisSession`, whose methods `SubmitSymptoms` and `SubmitAnswers` are the POST branches of `diagnose_form` and `ask_followup`.

Design points:

- Confidences are `real` and are only compared.
- A session field that is `None` stands for an absent key. The handlers never leave `None` stored under a diagnosis key: `final_top_match_details` is set to `None` at line 565 only to be overwritten at line 588. `current_symptoms` and `current_risk_factors` are read with the default `[]` (lines 594, 631-632, 671), which the model writes as `GetOr([])`. The other keys are read with `session.get` and no default, so an absent key reads as `None`.
- The patient's stored conditions (read from the database by `personalized_advice`) are a parameter of the advice note, and so are the user id and the time stamp of a report.

Two behaviours of the code worth noting:

- A first pass that finds no candidate does not clear earlier results. It only overwrites the stored symptoms and risk factors, so results of an earlier diagnosis stay in the session (`SubmitSymptoms`).
- The asthma rule of `personalized_advice` does not exclude diagnoses by keyword. It fires only when the diagnosis mentions `breath` or `wheezing` (`Advice.Rules`).

## Model

| member | source | states |
|---|---|---|
| Session.DiagnosisSession.constructor | medicaldiagnosis/medicaldiagnosi/app.py:502-513 | a new session holds none of the diagnosis keys and satisfies the session invariant |
| Session.DiagnosisSession.SubmitSymptoms | medicaldiagnosis/medicaldiagnosi/app.py:513-602 | an empty selection changes nothing; otherwise the symptoms and risk factors are stored; a failed or empty first query writes nothing else (old results stay); if the ranked candidates have questions, exactly those questions are stored sorted and without repeats, and results are untouched; if not, pending questions are removed, the results are the top 3 and the details are those of the first; the invariant is kept |
| Session.DiagnosisSession.RouteFirstPass | medicaldiagnosis/medicaldiagnosi/app.py:555-602 | with questions pooled, exactly the pooled questions are stored, sorted without repeats, and the results are untouched; with none, pending questions are removed and the ranked results and their details are stored; the invariant is kept |
| Session.DiagnosisSession.StoreResults | medicaldiagnosis/medicaldiagnosi/app.py:562-601 | the results become the ranked candidates and the details those of the first candidate with the advice note for the patient's conditions; no other key changes |
| Session.DiagnosisSession.SubmitAnswers | medicaldiagnosis/medicaldiagnosi/app.py:612-693 | with no pending questions nothing changes; otherwise the refined goal carries exactly the yes/no answers to the offered questions and the stored symptoms and risk factors; a failed or empty refined query changes nothing (no fallback to the first pass); on success the results and details are replaced, the offered questions are kept for display and the pending questions are removed; the invariant is kept |
| Session.DiagnosisSession.StoreRefinedResults | medicaldiagnosis/medicaldiagnosi/app.py:642-689 | the refined results and the details of their first candidate are stored, the asked questions are kept for display and the pending ones removed; the symptoms stay; the invariant is kept |
| Session.HistoryKeepsTopConfidence | medicaldiagnosis/medicaldiagnosi/app.py:745-763 | in a valid session with details, the history row records the disease and confidence of the first ranked candidate |
| Session.FluWalkThrough | medicaldiagnosis/medicaldiagnosi/app.py:513-693 | with first-pass answers flu 72 and cold 65 and one question for flu, the single question is asked; after "yes" the refined result flu 88 is shown as `Flu` with confidence 88 |
| Session.FluFirstPass | medicaldiagnosis/medicaldiagnosi/app.py:513-557 | the first pass of that example stores the one flu question and the symptoms |
| Session.FluSecondPass | medicaldiagnosis/medicaldiagnosi/app.py:618-693 | answering `yes` to flu's question when the refined goal yields flu 88 shows `Flu` with confidence 88 |
| Session.FluMatches | medicaldiagnosis/medicaldiagnosi/app.py:533-539 | the example knowledge base answers the first-pass and refined goals as described |
| Session.FluQuestions | medicaldiagnosis/medicaldiagnosi/app.py:545-547 | in the example knowledge base only flu has a follow-up question |
| Session.FluRanking | medicaldiagnosis/medicaldiagnosi/app.py:541-542 | flu 72 stays ahead of cold 65 |
| Session.PoolOfOneAsker | medicaldiagnosis/medicaldiagnosi/app.py:544-550 | of two candidates, when only the first has a question, the pool is that question alone |
| Ranking.SortDesc | medicaldiagnosis/medicaldiagnosi/app.py:541 | the sorted list is a permutation of the input, in descending confidence |
| Ranking.Insert | medicaldiagnosis/medicaldiagnosi/app.py:541 | inserting adds one element: the inserted candidate and every old one are in the result (with `Ranking.InsertMultiset`, nothing else is) |
| Ranking.InsertSorted | medicaldiagnosis/medicaldiagnosi/app.py:541 | inserting into a descending list keeps it descending |
| Ranking.InsertMultiset | medicaldiagnosis/medicaldiagnosi/app.py:541 | inserting adds exactly the inserted candidate |
| Ranking.InsertWithConfidence | medicaldiagnosis/medicaldiagnosi/app.py:541 | inserting puts the candidate first within its confidence class and leaves the other classes alone |
| Ranking.SortDescIsStable | medicaldiagnosis/medicaldiagnosi/app.py:541 | within each confidence the sort keeps the input order (Python's sort is stable) |
| Ranking.StableSortUnique | medicaldiagnosis/medicaldiagnosi/app.py:541 | a descending list with the same per-confidence order as another one is equal to it, so the stable sort is determined |
| Ranking.Rank | medicaldiagnosis/medicaldiagnosi/app.py:541-542 | the ranked list is descending and has length min(input, 3) |
| Ranking.RankIsStablePrefix | medicaldiagnosis/medicaldiagnosi/app.py:541-542 | the ranked list is a sub-multiset of the input, and within each confidence it is a prefix of the input order |
| Ranking.RankKeepsTheBest | medicaldiagnosis/medicaldiagnosi/app.py:541-542 | every dropped candidate has no more confidence than any kept one; with at most three inputs all are kept |
| Ranking.WithConfidenceMember | medicaldiagnosis/medicaldiagnosi/app.py:541 | a confidence class holds only input candidates of that confidence |
| Ranking.WithConfidenceAppend | medicaldiagnosis/medicaldiagnosi/app.py:542 | the class of a concatenation is the concatenation of the classes |
| Ranking.SortedSplit | medicaldiagnosis/medicaldiagnosi/app.py:542 | in a descending list everything after a cut has no more confidence than anything before it |
| KnowledgeBase.EscapeQuotesRoundTrip | medicaldiagnosis/medicaldiagnosi/app.py:628 | undoubling the doubled quotes gives back the question |
| KnowledgeBase.EscapeQuotesPaired | medicaldiagnosis/medicaldiagnosi/app.py:628 | after doubling, every quote of the question text is one of a doubled pair |
| KnowledgeBase.EscapeQuotes | medicaldiagnosis/medicaldiagnosi/app.py:628 | doubling never shortens the text |
| KnowledgeBase.SymptomAtom | medicaldiagnosis/medicaldiagnosi/app.py:529 | the atom is the symptom between single quotes, each `_` turned into a space and every other character kept, so no `_` is sent |
| KnowledgeBase.RiskFactorAtom | medicaldiagnosis/medicaldiagnosi/app.py:530 | a risk factor is quoted exactly when it holds a space; its text is otherwise unchanged |
| KnowledgeBase.AnswerTerm | medicaldiagnosis/medicaldiagnosi/app.py:628 | the answer term opens with `('` and closes with `)`; unescaping its quoted part gives back the question and its last field is the reply |
| KnowledgeBase.PrologList | medicaldiagnosis/medicaldiagnosi/app.py:529-530 | a Prolog list is bracketed and contains every one of its elements |
| KnowledgeBase.SymptomList | medicaldiagnosis/medicaldiagnosi/app.py:529 | the symptom list contains every symptom's atom |
| KnowledgeBase.RiskFactorList | medicaldiagnosis/medicaldiagnosi/app.py:530 | the risk factor list contains every risk factor's atom |
| KnowledgeBase.AnswerList | medicaldiagnosis/medicaldiagnosi/app.py:628-629 | no answers give the literal `[]`; otherwise the list contains every answer's term |
| KnowledgeBase.MatchGoal | medicaldiagnosis/medicaldiagnosi/app.py:533-534 | the `symptom_match` goal contains the symptom list, the risk factor list and the answer list |
| KnowledgeBase.NoMatch | medicaldiagnosis/medicaldiagnosi/app.py:540 | defines the "no match" test that both handlers make (line 641 repeats it): a failed query or an empty result list; the handlers go on exactly when the query answered with at least one candidate |
| KnowledgeBase.RefinedQuery | medicaldiagnosis/medicaldiagnosi/app.py:631-635 | the refined goal contains every stored symptom's atom, every risk factor's atom and every collected answer's term |
| KnowledgeBase.InitialQuery | medicaldiagnosis/medicaldiagnosi/app.py:529-534 | the first-pass goal is the refined goal with no answers, the literal `[]` in the answer slot |
| KnowledgeBase.FollowUpQuery | medicaldiagnosis/medicaldiagnosi/app.py:545 | the follow-up goal holds the disease at a fixed offset, so the goal gives the disease back |
| KnowledgeBase.TestQuery | medicaldiagnosis/medicaldiagnosi/app.py:572 | the test goal holds the disease at a fixed offset |
| KnowledgeBase.TreatmentQuery | medicaldiagnosis/medicaldiagnosi/app.py:577 | the treatment goal holds the disease at a fixed offset |
| KnowledgeBase.AdviceQuery | medicaldiagnosis/medicaldiagnosi/app.py:582 | the advice goal holds the disease at a fixed offset |
| KnowledgeBase.FollowUpQueryInjective | medicaldiagnosis/medicaldiagnosi/app.py:545 | different diseases send different follow-up goals |
| KnowledgeBase.RefinedQueryDiffersFromInitial | medicaldiagnosis/medicaldiagnosi/app.py:533-535 | a goal with answers is longer than the first-pass goal, so the two never coincide |
| FollowUp.AggregateFollowUps | medicaldiagnosis/medicaldiagnosi/app.py:538-556 | the returned list is strictly ascending and holds exactly the questions of the ranked candidates' lookups |
| FollowUp.AddQuestions | medicaldiagnosis/medicaldiagnosi/app.py:546-550 | the set grows by exactly the returned questions |
| FollowUp.SortedList | medicaldiagnosis/medicaldiagnosi/app.py:556 | the list is strictly ascending (no repeats) and has the same elements as the set |
| FollowUp.AscendingUnique | medicaldiagnosis/medicaldiagnosi/app.py:556 | two strictly ascending lists with the same elements are equal, so the stored list depends only on the set |
| FollowUp.InsertAscending | medicaldiagnosis/medicaldiagnosi/app.py:556 | inserting adds exactly one element |
| FollowUp.InsertAscendingSorted | medicaldiagnosis/medicaldiagnosi/app.py:556 | inserting a new element into a strictly ascending list keeps it strictly ascending |
| FollowUp.PoolMembers | medicaldiagnosis/medicaldiagnosi/app.py:544-550 | a question is pooled exactly when one of the ranked candidates' lookups returned it |
| FollowUp.Pool | medicaldiagnosis/medicaldiagnosi/app.py:538-550 | defines the contents of the question `set`: empty when there are no candidates, and holding every question the lookup returned for each ranked candidate |
| FollowUp.PoolAppend | medicaldiagnosis/medicaldiagnosi/app.py:544-550 | the pool of a concatenation is the union of the pools |
| FollowUp.PoolStep | medicaldiagnosis/medicaldiagnosi/app.py:544-550 | one more candidate adds exactly its own questions |
| FollowUp.SilentCandidateContributesNothing | medicaldiagnosis/medicaldiagnosi/app.py:547 | a candidate whose lookup fails or is empty can be dropped without changing the pool |
| FollowUp.QuestionsFor | medicaldiagnosis/medicaldiagnosi/app.py:545-547 | a diagnosis contributes the questions its lookup returned, and none when the lookup fails |
| FollowUp.CollectAnswers | medicaldiagnosis/medicaldiagnosi/app.py:619-623 | the answers are those of the answering function; each names an offered question and has reply yes or no |
| FollowUp.Answered | medicaldiagnosis/medicaldiagnosi/app.py:619-623 | no more answers than offered questions; every kept answer names an offered question, and its reply is the form's value for it, `yes` or `no` |
| FollowUp.IsYesNo | medicaldiagnosis/medicaldiagnosi/app.py:622 | defines the accepted form values: exactly `yes` and `no` |
| FollowUp.AnsweredMembers | medicaldiagnosis/medicaldiagnosi/app.py:619-623 | an answer is collected exactly when its question was offered and the form sent `yes` or `no` for it |
| FollowUp.AnsweredKeepsOrder | medicaldiagnosis/medicaldiagnosi/app.py:619-623 | the answers keep the offered (ascending) order |
| FollowUp.AnsweredQuestions | medicaldiagnosis/medicaldiagnosi/app.py:623 | the questions of the answers, position by position |
| Advice.PersonalizedAdvice | medicaldiagnosis/medicaldiagnosi/app.py:293-303 | for every input (no precondition) the note equals the rule-table note |
| Advice.HasConditions | medicaldiagnosis/medicaldiagnosi/app.py:296 | the rules are not consulted without recorded conditions, with an empty text, or with `none` in any letter case, and are consulted for every other text |
| Advice.Render | medicaldiagnosis/medicaldiagnosi/app.py:302-303 | no lines give the fallback note; otherwise the note opens with the heading and contains every line |
| Advice.Notes | medicaldiagnosis/medicaldiagnosi/app.py:296-303 | the note is either the fallback line or opens with the `Personalized Notes` heading |
| Advice.RulesAsWritten | medicaldiagnosis/medicaldiagnosi/app.py:299-301 | the firing lines are the diabetes line unless the diagnosis mentions sugar, the hypertension line, and the asthma line only with breath or wheezing, in that order |
| Advice.NoConditionsGiveFallback | medicaldiagnosis/medicaldiagnosi/app.py:296 | missing or empty conditions, or `none` in any case, give the fallback note |
| Advice.FallbackIffNothingFires | medicaldiagnosis/medicaldiagnosi/app.py:302-303 | the fallback note appears if and only if no rule fires |
| Advice.FiringLinesMembers | medicaldiagnosis/medicaldiagnosi/app.py:299-301 | a rule's line is listed exactly when the rule fires |
| Advice.NotFromOtherRules | medicaldiagnosis/medicaldiagnosi/app.py:299-301 | every listed line belongs to some rule |
| Advice.RuleLineShownIffFires | medicaldiagnosis/medicaldiagnosi/app.py:296-301 | with conditions present, each rule's line is shown exactly when the rule fires |
| Advice.AsthmaMeansConditions | medicaldiagnosis/medicaldiagnosi/app.py:296 | conditions mentioning asthma always count as present |
| Advice.AsthmaWithWheezing | medicaldiagnosis/medicaldiagnosi/app.py:301-302 | asthma and a diagnosis mentioning wheezing or breath put the inhaler line into the note |
| Details.BuildDetails | medicaldiagnosis/medicaldiagnosi/app.py:569-601 | the raw disease and confidence are the top candidate's; the raw symptoms are the given ones; the displayed disease, test and treatment are the display forms of the raw ones; advice and note are copied |
| Details.DetailDefaults | medicaldiagnosis/medicaldiagnosi/app.py:572-584 | a missing test becomes `N/S`, a missing treatment `["N/S info"]`, a single treatment a one-element list, missing advice `General advice.`; found values are used as is |
| Details.ResolvedTest | medicaldiagnosis/medicaldiagnosi/app.py:572-574 | the test found is used as is, and `N/S` when none is found |
| Details.ResolvedTreatment | medicaldiagnosis/medicaldiagnosi/app.py:577-579 | a list is used as is, a single treatment becomes a one-element list, none becomes `["N/S info"]` |
| Details.ResolvedAdvice | medicaldiagnosis/medicaldiagnosi/app.py:582-584 | the advice found is used as is, and `General advice.` when none is found |
| Details.TreatmentText | medicaldiagnosis/medicaldiagnosi/app.py:591 | the treatment text opens with a bullet and shows every treatment step in display form |
| Details.Display | medicaldiagnosis/medicaldiagnosi/app.py:589 | the display form has the atom's length |
| Details.DisplayShape | medicaldiagnosis/medicaldiagnosi/app.py:589 | at each position an `_` is shown as a space, any other non-letter as it is, and a letter upper-cased where a word starts and lower-cased elsewhere; no `_` is left |
| Details.DisplayIdempotent | medicaldiagnosis/medicaldiagnosi/app.py:589 | formatting a displayed name again changes nothing |
| Details.DisplayFlu | medicaldiagnosis/medicaldiagnosi/app.py:589 | `flu` is shown as `Flu` |
| Text.Contains | medicaldiagnosis/medicaldiagnosi/app.py:299-301 | Python's `in` on strings: true exactly when the needle occurs at some position |
| Text.InfixOfConcat | medicaldiagnosis/medicaldiagnosi/app.py:302 | a text occurring in one part occurs in the concatenation |
| Text.Join | medicaldiagnosis/medicaldiagnosi/app.py:302 | `join` of one part is that part, and every part occurs in the joined text |
| Text.Lower | medicaldiagnosis/medicaldiagnosi/app.py:296-298 | `lower` maps every character by the ASCII lower-case map |
| Text.ToLowerChar | medicaldiagnosis/medicaldiagnosi/app.py:296-298 | an upper-case letter moves 32 code points down to its lower-case letter, every other character is kept |
| Text.ToUpperChar | medicaldiagnosis/medicaldiagnosi/app.py:589 | a lower-case letter moves 32 code points up to its upper-case letter, every other character is kept |
| Text.ReplaceChar | medicaldiagnosis/medicaldiagnosi/app.py:529 | `replace` of one character: that character is replaced at every position, all else is kept |
| Text.TrimLeft | medicaldiagnosis/medicaldiagnosi/app.py:224 | the result is a suffix, starts with no blank, and only blanks were removed |
| Text.TrimRight | medicaldiagnosis/medicaldiagnosi/app.py:224 | the result is a prefix, ends with no blank, and only blanks were removed |
| Text.Strip | medicaldiagnosis/medicaldiagnosi/app.py:224 | the stripped text neither starts nor ends with a blank |
| Text.TitleAt | medicaldiagnosis/medicaldiagnosi/app.py:589 | at each position `title` keeps a non-letter, upper-cases a letter that no letter precedes and lower-cases every other letter |
| Text.Title | medicaldiagnosis/medicaldiagnosi/app.py:589 | `title` keeps every non-letter, upper-cases each letter that starts a run of letters and lower-cases every other letter |
| Text.TitleFromIdempotent | medicaldiagnosis/medicaldiagnosi/app.py:589 | title-casing twice is title-casing once |
| Text.LessIrreflexive | medicaldiagnosis/medicaldiagnosi/app.py:556 | string order is irreflexive |
| Text.LessTransitive | medicaldiagnosis/medicaldiagnosi/app.py:556 | string order is transitive |
| Text.LessTotal | medicaldiagnosis/medicaldiagnosi/app.py:556 | two different strings are ordered one way or the other |
| Text.Less | medicaldiagnosis/medicaldiagnosi/app.py:556 | string order never relates a string to itself, and a proper prefix comes first |
| Report.ConditionsDisplay | medicaldiagnosis/medicaldiagnosi/app.py:223-227 | missing, empty or `none` conditions read `None`; the text never starts or ends with a blank |
| Report.NormalConditionsDisplay | medicaldiagnosis/medicaldiagnosi/app.py:224-225 | `normal` in any case and spacing reads `Normal (No pre-existing)` |
| Report.OtherConditionsDisplay | medicaldiagnosis/medicaldiagnosi/app.py:226-227 | other conditions are shown stripped |
| Report.Basename | medicaldiagnosis/medicaldiagnosi/app.py:284 | the base name is a suffix of the path without `/` |
| Report.BasenameKeepsSuffix | medicaldiagnosis/medicaldiagnosi/app.py:284 | a final stretch without `/` stays in the base name |
| Report.BasenameOfPlainName | medicaldiagnosis/medicaldiagnosi/app.py:284 | a name without `/` is its own base name |
| Report.Sanitize | medicaldiagnosis/medicaldiagnosi/app.py:284 | every character other than letters, digits, `_` and `-` becomes `_`, the others are kept |
| Report.SanitizeIdempotent | medicaldiagnosis/medicaldiagnosi/app.py:284 | sanitising twice is sanitising once |
| Report.SafeBaseFilename | medicaldiagnosis/medicaldiagnosi/app.py:284 | the stored name is made of letters, digits, `_` and `-` only |
| Report.FileNameChar | medicaldiagnosis/medicaldiagnosi/app.py:284 | defines the characters the sanitiser keeps: letters, digits, `_` and `-`; none of them is `/` or `.` |
| Report.SafeBaseFilenameDropsExtension | medicaldiagnosis/medicaldiagnosi/app.py:284 | as written, the stored name has no `.` and so never ends in `.pdf` |
| Report.PdfNameLosesItsDot | medicaldiagnosis/medicaldiagnosi/app.py:284 | a report name `<stem>.pdf` is stored as `<stem>_pdf` |
| Report.SafeDiseaseName | medicaldiagnosis/medicaldiagnosi/app.py:756 | same length; at each position a letter or digit is kept and anything else becomes `_` |
| Report.ReportBaseName | medicaldiagnosis/medicaldiagnosi/app.py:757 | the report name ends in `.pdf` |
| Report.SafeReportFilename | medicaldiagnosis/medicaldiagnosi/app.py:284 | corrected sanitiser: no `/`, and a `.pdf` base name keeps its extension |
| Report.PdfNameKeepsExtension | medicaldiagnosis/medicaldiagnosi/app.py:284 | with the corrected sanitiser a `.pdf` name keeps its extension and its stem is made of file-name characters |
| Report.StoredReportName | medicaldiagnosis/medicaldiagnosi/app.py:284 | every report name of line 757 is stored with its `.pdf` extension, a sanitised stem and no directory part |
| Report.HistoryRecord | medicaldiagnosis/medicaldiagnosi/app.py:762-763 | the history row stores the raw disease and raw confidence of the details and the symptoms joined by commas |
| Registration.AfterLastAt | medicaldiagnosis/medicaldiagnosi/app.py:389 | `split('@')[-1]`: a suffix without `@`, preceded by `@` when shorter than the whole text |
| Registration.EmailLooksValidMeans | medicaldiagnosis/medicaldiagnosi/app.py:389 | the format test holds exactly when some `@` is followed by a `.` and by no further `@` |
| Registration.ValidHasDotAfterLastAt | medicaldiagnosis/medicaldiagnosi/app.py:389 | the format test implies the positional condition |
| Registration.DotAfterLastAtIsValid | medicaldiagnosis/medicaldiagnosi/app.py:389 | the positional condition implies the format test |
| Registration.EmailLooksValid | medicaldiagnosis/medicaldiagnosi/app.py:389 | an accepted e-mail has an `@` and a `.` and does not end in `@` |
| Registration.CheckRegistration | medicaldiagnosis/medicaldiagnosi/app.py:380-391 | the checks run in the source's order: the verdict is a missing field exactly when the trimmed name, the trimmed lower-cased e-mail or a password is empty; passwords differ exactly when all are present and they differ; invalid e-mail exactly when all are present, the passwords agree and the format test fails; otherwise registration goes ahead |

## Left out

- Flask routing, templates, redirects, flashed messages and the login guard are not modelled. The two handlers return an outcome value that names the page the user is sent to.
- The profile-completeness redirect at the start of `diagnose_form` (lines 508-511) is not modelled. It reads the database before the form is handled.
- The GET branches of both handlers and `view_results` (lines 697-726) are not modelled; they only render session data. The latter also removes the displayed questions from the session.
- SQLite access, password hashing, PDF drawing, the chart and the time stamp are left out as I/O. The patient's conditions, the user id and the time stamp are parameters instead.
- The Prolog engine is not modelled: consulting the file, its existence check and the `symptom_match` clauses. The knowledge base is an oracle from goal strings to optional answers, and `None` covers a failed query, an empty solution list and a missing binding.
- Byte decoding is not modelled: atoms are strings.
- Prolog's backslash escapes inside quoted atoms are not modelled. Line 628 only doubles the quotes of a question and does not escape `\`, so the engine may read a question that holds a backslash differently. The escaping lemmas prove only that every quote is doubled and that undoubling gives the text back.
- `float(...)` parsing and the `:.2f` formatting of confidences are not modelled. Confidences are `real` values.
- The `requires_test` and `advice` lookups are single strings in the model. A list-valued Prolog binding for them is not modelled.
- All string operations are ASCII-only: `lower`, `strip`, `isalnum` and `title` do not cover Unicode letters or Unicode white space.
- String ordering is by character code, which is what Python's `sorted` does on strings.
- Session.FluWalkThrough: stated for every knowledge base that answers the example's goals as `Session.FluKnowledgeBase` does; the symptoms and the question are parameters, so that the goal strings stay symbolic in the proof; `Session.FluMatches` and `Session.FluQuestions` show that the example knowledge base meets its requirements with fever, cough and `does_fever_exceed_102`.

## Findings

| source | as written | input that shows it | evidently intended | confidence | as-written member | corrected member |
|---|---|---|---|---|---|---|
| medicaldiagnosis/medicaldiagnosi/app.py:284 | the sanitiser replaces every character other than letters, digits, `_` and `-`, including the `.` of the `.pdf` suffix that line 757 appended | report name `Report_1_flu_20250101_101010.pdf` is written as `Report_1_flu_20250101_101010_pdf` | sanitise the base name but keep the `.pdf` extension | high, not executed | Report.SafeBaseFilenameDropsExtension | Report.StoredReportName |
