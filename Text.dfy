/**
 * String helpers with Python's meaning, restricted to ASCII: `str.lower`, `str.strip`,
 * `str.replace` of one character, `str.title`, `str.isalnum`, the `in` substring test,
 * `sep.join(xs)` and the code-point ordering `sorted` uses on strings.
 */
module Text {

  predicate IsUpper(c: char) { 'A' <= c <= 'Z' }
  predicate IsLower(c: char) { 'a' <= c <= 'z' }
  predicate IsLetter(c: char) { IsUpper(c) || IsLower(c) }
  predicate IsDigit(c: char) { '0' <= c <= '9' }
  predicate IsAlnum(c: char) { IsLetter(c) || IsDigit(c) }

  /** Python's whitespace among the ASCII characters: space, \t \n \v \f \r and \x1c-\x1f. */
  predicate IsSpace(c: char) {
    c == ' ' || 9 <= c as int <= 13 || 28 <= c as int <= 31
  }

  function ToLowerChar(c: char): (r: char)
    ensures IsLetter(c) <==> IsLetter(r)
    ensures IsLetter(c) ==> IsLower(r)
    ensures IsUpper(c) ==> r as int == c as int + 32
    ensures !IsUpper(c) ==> r == c
  {
    if IsUpper(c) then (c as int + 32) as char else c
  }

  function ToUpperChar(c: char): (r: char)
    ensures IsLetter(c) <==> IsLetter(r)
    ensures IsLetter(c) ==> IsUpper(r)
    ensures IsLower(c) ==> r as int == c as int - 32
    ensures !IsLower(c) ==> r == c
  {
    if IsLower(c) then (c as int - 32) as char else c
  }

  /** `s.lower()` */
  function Lower(s: string): (r: string)
    ensures |r| == |s|
    ensures forall i :: 0 <= i < |s| ==> r[i] == ToLowerChar(s[i])
  {
    if s == [] then [] else [ToLowerChar(s[0])] + Lower(s[1..])
  }

  /** `s.replace(from, to)` for one-character `from` and `to`. */
  function ReplaceChar(s: string, from: char, to: char): (r: string)
    ensures |r| == |s|
    ensures forall i :: 0 <= i < |s| ==> r[i] == (if s[i] == from then to else s[i])
  {
    if s == [] then [] else [if s[0] == from then to else s[0]] + ReplaceChar(s[1..], from, to)
  }

  /** `s.lstrip()`: the suffix left after dropping the leading whitespace. */
  function TrimLeft(s: string): (r: string)
    ensures |r| <= |s| && r == s[|s| - |r|..]
    ensures r == [] || !IsSpace(r[0])
    ensures forall i :: 0 <= i < |s| - |r| ==> IsSpace(s[i])
  {
    if s != [] && IsSpace(s[0]) then TrimLeft(s[1..]) else s
  }

  /** `s.rstrip()`: the prefix left after dropping the trailing whitespace. */
  function TrimRight(s: string): (r: string)
    ensures |r| <= |s| && r == s[..|r|]
    ensures r == [] || !IsSpace(r[|r| - 1])
    ensures forall i :: |r| <= i < |s| ==> IsSpace(s[i])
  {
    if s != [] && IsSpace(s[|s| - 1]) then TrimRight(s[..|s| - 1]) else s
  }

  /** `s.strip()`: the input without its leading and trailing whitespace. */
  function Strip(s: string): (r: string)
    ensures r == [] || (!IsSpace(r[0]) && !IsSpace(r[|r| - 1]))
  {
    TrimRight(TrimLeft(s))
  }

  /** The substring test `needle in hay`. */
  ghost predicate IsInfix(needle: string, hay: string) {
    exists i :: InfixAt(needle, hay, i)
  }

  /** `needle` occurs in `hay` starting at position `i`. */
  predicate InfixAt(needle: string, hay: string, i: int) {
    0 <= i <= |hay| - |needle| && hay[i..i + |needle|] == needle
  }

  /** A computable form of `IsInfix`. */
  function Contains(hay: string, needle: string): (b: bool)
    ensures b <==> IsInfix(needle, hay)
  {
    if |needle| > |hay| then false
    else if hay[..|needle|] == needle then assert InfixAt(needle, hay, 0); true
    else
      var b := Contains(hay[1..], needle);
      assert IsInfix(needle, hay) ==> b by {
        if IsInfix(needle, hay) {
          var i :| InfixAt(needle, hay, i);
          assert i != 0;
          assert InfixAt(needle, hay[1..], i - 1);
        }
      }
      assert b ==> IsInfix(needle, hay) by {
        if b {
          var i :| InfixAt(needle, hay[1..], i);
          assert InfixAt(needle, hay, i + 1);
        }
      }
      b
  }

  /** Every part of `a + b` that is an infix of `a` or of `b` is an infix of `a + b`. */
  lemma InfixOfConcat(needle: string, a: string, b: string)
    requires IsInfix(needle, a) || IsInfix(needle, b)
    ensures IsInfix(needle, a + b)
  {
    if IsInfix(needle, a) {
      var i :| InfixAt(needle, a, i);
      assert (a + b)[i..i + |needle|] == a[i..i + |needle|];
      assert InfixAt(needle, a + b, i);
    } else {
      var i :| InfixAt(needle, b, i);
      assert (a + b)[|a| + i..|a| + i + |needle|] == b[i..i + |needle|];
      assert InfixAt(needle, a + b, |a| + i);
    }
  }

  /** A text occurs in anything built around it. */
  lemma InfixInMiddle(needle: string, a: string, b: string)
    ensures IsInfix(needle, a + needle + b)
  {
    assert (a + needle + b)[|a|..|a| + |needle|] == needle;
    assert InfixAt(needle, a + needle + b, |a|);
  }

  /** An infix of an infix is an infix. */
  lemma InfixTransitive(a: string, b: string, c: string)
    requires IsInfix(a, b) && IsInfix(b, c)
    ensures IsInfix(a, c)
  {
    var i :| InfixAt(a, b, i);
    var j :| InfixAt(b, c, j);
    forall t | 0 <= t < |a|
      ensures c[j + i + t] == a[t]
    {
      assert c[j..j + |b|][i + t] == b[i + t];
      assert b[i..i + |a|][t] == a[t];
    }
    assert c[j + i..j + i + |a|] == a;
    assert InfixAt(a, c, j + i);
  }

  /** `sep.join(xs)`: every joined part shows up in the joined string. */
  function Join(sep: string, xs: seq<string>): (r: string)
    ensures |xs| == 1 ==> r == xs[0]
    ensures forall k :: 0 <= k < |xs| ==> IsInfix(xs[k], r)
  {
    if |xs| == 0 then ""
    else if |xs| == 1 then assert InfixAt(xs[0], xs[0], 0); xs[0]
    else
      var rest := Join(sep, xs[1..]);
      assert forall k :: 1 <= k < |xs| ==> IsInfix(xs[k], xs[0] + sep + rest) by {
        forall k | 1 <= k < |xs|
          ensures IsInfix(xs[k], xs[0] + sep + rest)
        {
          assert xs[k] == xs[1..][k - 1];
          InfixOfConcat(xs[k], xs[0] + sep, rest);
        }
      }
      assert (xs[0] + sep + rest)[..|xs[0]|] == xs[0];
      assert InfixAt(xs[0], xs[0] + sep + rest, 0);
      xs[0] + sep + rest
  }

  /** Python's `str.title` over ASCII, `afterCased` telling whether the previous character was a letter. */
  function TitleFrom(s: string, afterCased: bool): (r: string)
    ensures |r| == |s|
  {
    if s == [] then []
    else if IsLetter(s[0]) then
      [if afterCased then ToLowerChar(s[0]) else ToUpperChar(s[0])] + TitleFrom(s[1..], true)
    else [s[0]] + TitleFrom(s[1..], false)
  }

  /**
   * `s.title()`: other characters stay, a letter that starts a run of letters becomes
   * upper-case and every other letter lower-case.
   */
  function Title(s: string): (r: string)
    ensures |r| == |s|
    ensures forall i :: 0 <= i < |s| && !IsLetter(s[i]) ==> r[i] == s[i]
    ensures forall i :: 0 <= i < |s| && IsLetter(s[i]) && (i == 0 || !IsLetter(s[i - 1])) ==>
      r[i] == ToUpperChar(s[i])
    ensures forall i :: 0 < i < |s| && IsLetter(s[i]) && IsLetter(s[i - 1]) ==> r[i] == ToLowerChar(s[i])
  {
    var r := TitleFrom(s, false);
    forall i | 0 <= i < |s|
      ensures !IsLetter(s[i]) ==> r[i] == s[i]
      ensures IsLetter(s[i]) && (i == 0 || !IsLetter(s[i - 1])) ==> r[i] == ToUpperChar(s[i])
      ensures i > 0 && IsLetter(s[i]) && IsLetter(s[i - 1]) ==> r[i] == ToLowerChar(s[i])
    {
      TitleAt(s, false, i);
    }
    r
  }

  /**
   * What `title` does to one position: other characters stay, and a letter is upper-cased
   * when it starts a run of letters and lower-cased otherwise.
   */
  lemma {:induction false} TitleAt(s: string, afterCased: bool, i: nat)
    requires i < |s|
    ensures IsLetter(TitleFrom(s, afterCased)[i]) <==> IsLetter(s[i])
    ensures !IsLetter(s[i]) ==> TitleFrom(s, afterCased)[i] == s[i]
    ensures IsLetter(s[i]) ==>
      (IsUpper(TitleFrom(s, afterCased)[i]) <==> (if i == 0 then !afterCased else !IsLetter(s[i - 1])))
    ensures IsLetter(s[i]) ==>
      TitleFrom(s, afterCased)[i] ==
        if (if i == 0 then !afterCased else !IsLetter(s[i - 1])) then ToUpperChar(s[i]) else ToLowerChar(s[i])
  {
    if i > 0 {
      TitleAt(s[1..], IsLetter(s[0]), i - 1);
    }
  }

  /** Title-casing twice is the same as title-casing once. */
  lemma {:induction false} TitleFromIdempotent(s: string, afterCased: bool)
    ensures TitleFrom(TitleFrom(s, afterCased), afterCased) == TitleFrom(s, afterCased)
  {
    if s != [] {
      TitleFromIdempotent(s[1..], IsLetter(s[0]));
    }
  }

  /** Strict code-point order on strings, as Python compares `str` values. */
  predicate Less(a: string, b: string): (r: bool)
    ensures r ==> a != b
    ensures |a| < |b| && a == b[..|a|] ==> r
  {
    if a == [] then b != []
    else if b == [] then false
    else if a[0] != b[0] then a[0] < b[0]
    else Less(a[1..], b[1..])
  }

  lemma {:induction false} LessIrreflexive(a: string)
    ensures !Less(a, a)
  {
    if a != [] { LessIrreflexive(a[1..]); }
  }

  lemma {:induction false} LessTransitive(a: string, b: string, c: string)
    requires Less(a, b) && Less(b, c)
    ensures Less(a, c)
  {
    if a != [] && b != [] && c != [] && a[0] == b[0] && b[0] == c[0] {
      LessTransitive(a[1..], b[1..], c[1..]);
    }
  }

  lemma {:induction false} LessTotal(a: string, b: string)
    requires a != b
    ensures Less(a, b) || Less(b, a)
  {
    if a != [] && b != [] && a[0] == b[0] {
      assert a == [a[0]] + a[1..] && b == [b[0]] + b[1..];
      LessTotal(a[1..], b[1..]);
    }
  }

  /** The sequence is in strictly ascending string order (so it has no duplicates). */
  predicate StrictlyAscending(xs: seq<string>) {
    forall i, j :: 0 <= i < j < |xs| ==> Less(xs[i], xs[j])
  }
}
