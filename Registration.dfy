/** The input checks of the `register` form (app.py lines 378-391), before the database is asked. */
module Registration {
  import opened Text

  /** `email.split('@')[-1]`: the text after the last `@`, or all of it when there is none. */
  function AfterLastAt(email: string): (r: string)
    ensures '@' !in r
    ensures |r| <= |email| && r == email[|email| - |r|..]
    ensures |r| < |email| ==> email[|email| - |r| - 1] == '@'
    ensures '@' !in email ==> r == email
  {
    if email == [] then []
    else if email[|email| - 1] == '@' then []
    else AfterLastAt(email[..|email| - 1]) + [email[|email| - 1]]
  }

  /** The format test of line 389, negated: an `@`, and a `.` after the last `@`. */
  predicate EmailLooksValid(email: string): (b: bool)
    ensures b ==> '@' in email && '.' in email && email[|email| - 1] != '@'
  {
    var r := AfterLastAt(email);
    assert '.' in r ==> '.' in email by {
      if '.' in r {
        var j :| 0 <= j < |r| && r[j] == '.';
        assert email[|email| - |r| + j] == '.';
      }
    }
    '@' in email && '.' in r
  }

  /** Some `@` followed by a `.` and by no further `@`. */
  ghost predicate DotAfterLastAt(email: string) {
    exists i, j :: 0 <= i < j < |email| && email[i] == '@' && email[j] == '.'
                   && forall k :: i < k < |email| ==> email[k] != '@'
  }

  /** The format test in positional terms: some `@` is followed by a `.` and by no further `@`. */
  lemma EmailLooksValidMeans(email: string)
    ensures EmailLooksValid(email) <==> DotAfterLastAt(email)
  {
    if EmailLooksValid(email) {
      ValidHasDotAfterLastAt(email);
    }
    if DotAfterLastAt(email) {
      var i, j :| 0 <= i < j < |email| && email[i] == '@' && email[j] == '.'
                  && forall k :: i < k < |email| ==> email[k] != '@';
      DotAfterLastAtIsValid(email, i, j);
    }
  }

  lemma ValidHasDotAfterLastAt(email: string)
    requires EmailLooksValid(email)
    ensures DotAfterLastAt(email)
  {
    var r := AfterLastAt(email);
    var start := |email| - |r|;
    assert r != email;
    var j' :| 0 <= j' < |r| && r[j'] == '.';
    assert email[start + j'] == '.';
    forall k | start - 1 < k < |email| ensures email[k] != '@' {
      assert email[k] == r[k - start];
    }
    assert email[start - 1] == '@';
  }

  lemma DotAfterLastAtIsValid(email: string, i: nat, j: nat)
    requires i < j < |email| && email[i] == '@' && email[j] == '.'
    requires forall k :: i < k < |email| ==> email[k] != '@'
    ensures EmailLooksValid(email)
  {
    var r := AfterLastAt(email);
    var start := |email| - |r|;
    assert email[i] in email;
    assert forall k :: start <= k < |email| ==> email[k] == r[k - start];
    assert i < start;
    assert start - 1 == i;
    assert r[j - start] == '.';
  }

  /** Why a registration is refused before the database is asked, or that it may go ahead. */
  datatype Verdict = MissingField | PasswordsDiffer | InvalidEmail | Proceed

  /**
   * Lines 378-391: the name and e-mail are trimmed (the e-mail also lower-cased), every field
   * must be non-empty, the passwords must agree, and the e-mail must pass the format test,
   * checked in that order.
   */
  function CheckRegistration(name: string, email: string, password: string, confirm: string): (v: Verdict)
    ensures v == Proceed <==> Strip(name) != "" && password != "" && password == confirm
                              && EmailLooksValid(Lower(Strip(email)))
    ensures v == PasswordsDiffer ==> password != confirm
    ensures v == InvalidEmail ==> !EmailLooksValid(Lower(Strip(email)))
    ensures v == MissingField <==>
              Strip(name) == "" || Lower(Strip(email)) == "" || password == "" || confirm == ""
    ensures v == PasswordsDiffer <==>
              && !(Strip(name) == "" || Lower(Strip(email)) == "" || password == "" || confirm == "")
              && password != confirm
    ensures v == InvalidEmail <==>
              && !(Strip(name) == "" || Lower(Strip(email)) == "" || password == "" || confirm == "")
              && password == confirm
              && !EmailLooksValid(Lower(Strip(email)))
  {
    var n := Strip(name);
    var e := Lower(Strip(email));
    if n == "" || e == "" || password == "" || confirm == "" then MissingField
    else if password != confirm then PasswordsDiffer
    else if !EmailLooksValid(e) then InvalidEmail
    else Proceed
  }
}
