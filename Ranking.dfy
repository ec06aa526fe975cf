/**
 * The candidate ranker: `sorted(results, key=lambda x: float(x[1]), reverse=True)[:3]`
 * (app.py lines 541-542 and 642-643). Python's sort is stable, also with `reverse=True`,
 * so candidates of equal confidence keep the order the knowledge base returned them in.
 */
module Ranking {

  /** A `[diagnosis, confidence]` pair of the knowledge base's `Results` list. */
  datatype Candidate = Candidate(disease: string, confidence: real)

  /** How many candidates are kept: the slice `[:3]`. */
  const TopK: nat := 3

  /** Confidence never increases along the sequence. */
  ghost predicate SortedDesc(s: seq<Candidate>) {
    forall i, j :: 0 <= i < j < |s| ==> s[i].confidence >= s[j].confidence
  }

  /** The candidates of confidence `c`, in their order in `s`. */
  function WithConfidence(s: seq<Candidate>, c: real): seq<Candidate>
  {
    if s == [] then []
    else (if s[0].confidence == c then [s[0]] else []) + WithConfidence(s[1..], c)
  }

  /** The class of `c` holds only input candidates of confidence `c`. */
  lemma {:induction false} WithConfidenceMember(s: seq<Candidate>, c: real, x: Candidate)
    requires x in WithConfidence(s, c)
    ensures x in s && x.confidence == c
  {
    if s[0] != x || s[0].confidence != c {
      WithConfidenceMember(s[1..], c, x);
    }
  }

  /**
   * Inserts `x` in front of the first entry whose confidence is not larger than its own,
   * so that it stays ahead of the equal-confidence entries that came after it in the input.
   */
  function Insert(x: Candidate, t: seq<Candidate>): (r: seq<Candidate>)
    ensures |r| == |t| + 1
    ensures x in r && forall y :: y in t ==> y in r
  {
    if t == [] then [x]
    else if t[0].confidence > x.confidence then [t[0]] + Insert(x, t[1..])
    else [x] + t
  }

  /** Inserting adds exactly `x`. */
  lemma {:induction false} InsertMultiset(x: Candidate, t: seq<Candidate>)
    ensures multiset(Insert(x, t)) == multiset{x} + multiset(t)
  {
    if t != [] && t[0].confidence > x.confidence {
      InsertMultiset(x, t[1..]);
      assert t == [t[0]] + t[1..];
    }
  }

  /** Inserting into a sorted list keeps it sorted. */
  lemma {:induction false} InsertSorted(x: Candidate, t: seq<Candidate>)
    requires SortedDesc(t)
    ensures SortedDesc(Insert(x, t))
  {
    if t != [] && t[0].confidence > x.confidence {
      var rest := Insert(x, t[1..]);
      InsertSorted(x, t[1..]);
      assert rest[0] == x || rest[0] == t[1];
      var r := [t[0]] + rest;
      assert Insert(x, t) == r;
      forall i, j | 0 <= i < j < |r| ensures r[i].confidence >= r[j].confidence {
        if i == 0 {
          assert r[j] == rest[j - 1];
          assert rest[0].confidence >= rest[j - 1].confidence;
        } else {
          assert r[i] == rest[i - 1] && r[j] == rest[j - 1];
        }
      }
    } else if t != [] {
      var r := [x] + t;
      assert Insert(x, t) == r;
      forall i, j | 0 <= i < j < |r| ensures r[i].confidence >= r[j].confidence {
        if i == 0 {
          assert r[j] == t[j - 1];
        } else {
          assert r[i] == t[i - 1] && r[j] == t[j - 1];
        }
      }
    }
  }

  /** The stable descending sort of `sorted(..., reverse=True)`, as an insertion sort. */
  function SortDesc(s: seq<Candidate>): (r: seq<Candidate>)
    ensures |r| == |s|
    ensures multiset(r) == multiset(s)
    ensures SortedDesc(r)
  {
    if s == [] then []
    else
      assert s == [s[0]] + s[1..];
      InsertSorted(s[0], SortDesc(s[1..]));
      InsertMultiset(s[0], SortDesc(s[1..]));
      Insert(s[0], SortDesc(s[1..]))
  }

  /** The ranked top of the knowledge base's answer: sort, then keep the first three. */
  function Rank(results: seq<Candidate>): (r: seq<Candidate>)
    ensures |r| == if |results| < TopK then |results| else TopK
    ensures SortedDesc(r)
  {
    var sorted := SortDesc(results);
    sorted[..if |sorted| < TopK then |sorted| else TopK]
  }

  /** Inserting `x` adds it to its own confidence class and leaves the order within each class. */
  lemma {:induction false} InsertWithConfidence(x: Candidate, t: seq<Candidate>, c: real)
    ensures WithConfidence(Insert(x, t), c)
         == (if x.confidence == c then [x] else []) + WithConfidence(t, c)
  {
    var mine: seq<Candidate> := if x.confidence == c then [x] else [];
    if t == [] {
      WithConfidenceCons(x, [], c);
      assert Insert(x, t) == [x] + [];
    } else if t[0].confidence > x.confidence {
      var rest := Insert(x, t[1..]);
      InsertWithConfidence(x, t[1..], c);
      assert Insert(x, t) == [t[0]] + rest;
      WithConfidenceCons(t[0], rest, c);
      WithConfidenceCons(t[0], t[1..], c);
      assert t == [t[0]] + t[1..];
    } else {
      assert Insert(x, t) == [x] + t;
      WithConfidenceCons(x, t, c);
    }
  }

  lemma WithConfidenceCons(x: Candidate, s: seq<Candidate>, c: real)
    ensures WithConfidence([x] + s, c) == (if x.confidence == c then [x] else []) + WithConfidence(s, c)
  {
    assert ([x] + s)[1..] == s;
  }

  /** Stability: within every confidence class, the sort keeps the input order. */
  lemma {:induction false} SortDescIsStable(s: seq<Candidate>, c: real)
    ensures WithConfidence(SortDesc(s), c) == WithConfidence(s, c)
  {
    if s != [] {
      SortDescIsStable(s[1..], c);
      InsertWithConfidence(s[0], SortDesc(s[1..]), c);
    }
  }

  lemma {:induction false} WithConfidenceAppend(a: seq<Candidate>, b: seq<Candidate>, c: real)
    ensures WithConfidence(a + b, c) == WithConfidence(a, c) + WithConfidence(b, c)
  {
    if a != [] {
      assert (a + b)[1..] == a[1..] + b;
      WithConfidenceAppend(a[1..], b, c);
    } else {
      assert a + b == b;
    }
  }

  /**
   * The ranked list is a prefix of the stable sort: it is made of input candidates
   * (with multiplicity), and within each confidence class it is a prefix of the input's order.
   */
  lemma RankIsStablePrefix(results: seq<Candidate>, c: real)
    ensures multiset(Rank(results)) <= multiset(results)
    ensures WithConfidence(Rank(results), c) <= WithConfidence(results, c)
  {
    var sorted := SortDesc(results);
    var k := |Rank(results)|;
    assert sorted == sorted[..k] + sorted[k..];
    WithConfidenceAppend(sorted[..k], sorted[k..], c);
    SortDescIsStable(results, c);
    calc {
      multiset(results);
      multiset(sorted);
      multiset(sorted[..k] + sorted[k..]);
      multiset(sorted[..k]) + multiset(sorted[k..]);
    }
  }

  /** Every candidate left out of a prefix of a sorted list ranks no higher than the prefix. */
  lemma SortedSplit(sorted: seq<Candidate>, k: nat)
    requires SortedDesc(sorted) && k <= |sorted|
    ensures forall x, y :: x in multiset(sorted[k..]) && y in sorted[..k] ==> x.confidence <= y.confidence
  {
    forall x: Candidate, y: Candidate | x in multiset(sorted[k..]) && y in sorted[..k]
      ensures x.confidence <= y.confidence
    {
      var i :| 0 <= i < |sorted[k..]| && sorted[k..][i] == x;
      var j :| 0 <= j < k && sorted[..k][j] == y;
      assert sorted[k + i] == x && sorted[j] == y;
    }
  }

  /**
   * Top-3 selection: every candidate the ranker drops has no more confidence than any it
   * keeps, and when three or fewer candidates come in, all of them are kept.
   */
  lemma RankKeepsTheBest(results: seq<Candidate>)
    ensures forall x, y :: x in multiset(results) - multiset(Rank(results)) && y in Rank(results)
              ==> x.confidence <= y.confidence
    ensures |results| <= TopK ==> multiset(Rank(results)) == multiset(results)
  {
    var sorted := SortDesc(results);
    var k := |Rank(results)|;
    assert Rank(results) == sorted[..k];
    assert sorted == sorted[..k] + sorted[k..];
    assert multiset(results) == multiset(sorted[..k]) + multiset(sorted[k..]);
    assert multiset(results) - multiset(sorted[..k]) == multiset(sorted[k..]);
    SortedSplit(sorted, k);
  }

  /** The stable descending order is unique: two sorted lists with the same classes are equal. */
  lemma {:induction false} StableSortUnique(a: seq<Candidate>, b: seq<Candidate>)
    requires SortedDesc(a) && SortedDesc(b)
    requires forall c :: WithConfidence(a, c) == WithConfidence(b, c)
    ensures a == b
  {
    if a == [] || b == [] {
      if a != [] {
        var w := WithConfidence(a, a[0].confidence);
        assert false;
      } else if b != [] {
        var w := WithConfidence(b, b[0].confidence);
        assert false;
      }
    } else {
      var ca, cb := a[0].confidence, b[0].confidence;
      assert WithConfidence(a, ca) == [a[0]] + WithConfidence(a[1..], ca);
      assert WithConfidence(b, cb) == [b[0]] + WithConfidence(b[1..], cb);
      assert b[0] in WithConfidence(a, cb);
      assert a[0] in WithConfidence(b, ca);
      WithConfidenceMember(a, cb, b[0]);
      WithConfidenceMember(b, ca, a[0]);
      var i :| 0 <= i < |a| && a[i] == b[0];
      var j :| 0 <= j < |b| && b[j] == a[0];
      assert ca >= a[i].confidence;
      assert cb >= b[j].confidence;
      assert ca == cb;
      assert WithConfidence(a, ca) == WithConfidence(b, ca);
      assert WithConfidence(a, ca)[0] == a[0] && WithConfidence(b, ca)[0] == b[0];
      forall c ensures WithConfidence(a[1..], c) == WithConfidence(b[1..], c) {
        assert WithConfidence(a, c) == WithConfidence(b, c);
        if c == ca {
          var wa, wb := WithConfidence(a[1..], c), WithConfidence(b[1..], c);
          assert WithConfidence(a, c) == [a[0]] + wa;
          assert WithConfidence(b, c) == [b[0]] + wb;
          assert ([a[0]] + wa)[1..] == wa;
          assert ([b[0]] + wb)[1..] == wb;
        } else {
          assert WithConfidence(a, c) == WithConfidence(a[1..], c);
          assert WithConfidence(b, c) == WithConfidence(b[1..], c);
        }
      }
      StableSortUnique(a[1..], b[1..]);
      assert a == [a[0]] + a[1..] && b == [b[0]] + b[1..];
    }
  }
}
