/**
 * Ranking by score, largest first.  JavaScript's Array.prototype.sort is a
 * stable sort, so `list.sort((a, b) => b.score - a.score)` orders entries by
 * descending score and keeps equal scores in their original order; SortByScore
 * is that sort, written as a stable insertion sort.  Top(s, n) is
 * `s.slice(0, n)` and the `[:n]` slice of a Django queryset.
 */
module Ranking {

  /** Scores never increase along s. */
  predicate SortedDesc<T>(s: seq<T>, score: T -> int) {
    forall i, j :: 0 <= i < j < |s| ==> score(s[i]) >= score(s[j])
  }

  /** Places x after every element of s with a larger score and before the rest. */
  function Insert<T>(x: T, s: seq<T>, score: T -> int): (r: seq<T>)
    ensures |r| == |s| + 1
  {
    if s == [] || score(x) >= score(s[0]) then [x] + s
    else
      assert s == [s[0]] + s[1..];
      [s[0]] + Insert(x, s[1..], score)
  }

  /** Stable sort of s by descending score. */
  function SortByScore<T>(s: seq<T>, score: T -> int): (r: seq<T>)
    ensures |r| == |s|
  {
    if s == [] then []
    else Insert(s[0], SortByScore(s[1..], score), score)
  }

  /** The sort is a permutation of its input. */
  lemma {:induction false} SortPermutes<T>(s: seq<T>, score: T -> int)
    ensures multiset(SortByScore(s, score)) == multiset(s)
  {
    if s != [] {
      SortPermutes(s[1..], score);
      InsertPermutes(s[0], SortByScore(s[1..], score), score);
      assert s == [s[0]] + s[1..];
    }
  }

  /** Inserting keeps every element of s and adds x once. */
  lemma {:induction false} InsertPermutes<T>(x: T, s: seq<T>, score: T -> int)
    ensures multiset(Insert(x, s, score)) == multiset(s) + multiset{x}
  {
    if s != [] && score(x) < score(s[0]) {
      InsertPermutes(x, s[1..], score);
      assert s == [s[0]] + s[1..];
    }
  }

  /** The first n elements of s, or all of s when it is shorter. */
  function Top<T>(s: seq<T>, n: nat): (r: seq<T>)
    ensures |r| == if |s| < n then |s| else n
    ensures r == s[..|r|]
  {
    if |s| <= n then s else s[..n]
  }

  lemma {:induction false} InsertKeepsOrder<T>(x: T, s: seq<T>, score: T -> int)
    requires SortedDesc(s, score)
    ensures SortedDesc(Insert(x, s, score), score)
  {
    if s != [] && score(x) < score(s[0]) {
      InsertKeepsOrder(x, s[1..], score);
      InsertKeepsBound(x, s[1..], score(s[0]), score);
      assert Insert(x, s, score) == [s[0]] + Insert(x, s[1..], score);
    }
  }

  /** Inserting an element that scores at most b into a list scoring at most b keeps every score at most b. */
  lemma {:induction false} InsertKeepsBound<T>(x: T, s: seq<T>, b: int, score: T -> int)
    requires score(x) <= b && forall i :: 0 <= i < |s| ==> score(s[i]) <= b
    ensures forall i :: 0 <= i < |s| + 1 ==> score(Insert(x, s, score)[i]) <= b
  {
    if s != [] && score(x) < score(s[0]) {
      InsertKeepsBound(x, s[1..], b, score);
      var t := Insert(x, s[1..], score);
      assert Insert(x, s, score) == [s[0]] + t;
      forall i | 1 <= i < |s| + 1 ensures score(Insert(x, s, score)[i]) <= b {
        assert Insert(x, s, score)[i] == t[i - 1];
      }
    }
  }

  /** The sorted list is ordered by descending score. */
  lemma {:induction false} SortIsOrdered<T>(s: seq<T>, score: T -> int)
    ensures SortedDesc(SortByScore(s, score), score)
  {
    if s != [] {
      SortIsOrdered(s[1..], score);
      InsertKeepsOrder(s[0], SortByScore(s[1..], score), score);
    }
  }

  /**
   * The first n of the sorted list are a top-n selection of s: ordered, as
   * many as possible, drawn from s, and no element left out scores higher
   * than any element kept.
   */
  lemma TopIsBest<T>(s: seq<T>, n: nat, score: T -> int)
    ensures var r := Top(SortByScore(s, score), n);
      && SortedDesc(r, score)
      && |r| == (if |s| < n then |s| else n)
      && multiset(r) <= multiset(s)
      && forall x, y :: x in multiset(s) - multiset(r) && y in r ==> score(x) <= score(y)
  {
    SortIsOrdered(s, score);
    SortPermutes(s, score);
    TopOfOrdered(SortByScore(s, score), n, score);
  }

  /** The first n of an ordered list are ordered, and nothing after them outscores anything among them. */
  lemma TopOfOrdered<T>(q: seq<T>, n: nat, score: T -> int)
    requires SortedDesc(q, score)
    ensures var r := Top(q, n);
      && SortedDesc(r, score)
      && multiset(r) <= multiset(q)
      && forall x, y :: x in multiset(q) - multiset(r) && y in r ==> score(x) <= score(y)
  {
    var r := Top(q, n);
    var rest := q[|r|..];
    assert q == r + rest;
    assert multiset(q) == multiset(r) + multiset(rest);
    forall x, y | x in multiset(q) - multiset(r) && y in r ensures score(x) <= score(y) {
      assert x in multiset(rest);
      OrderedAcross(q, |r|, x, y, score);
    }
  }

  /** In an ordered list nothing after position k outscores anything before it. */
  lemma OrderedAcross<T>(q: seq<T>, k: nat, x: T, y: T, score: T -> int)
    requires SortedDesc(q, score) && k <= |q| && x in q[k..] && y in q[..k]
    ensures score(x) <= score(y)
  {
    var j :| k <= j < |q| && q[j] == x;
    var i :| 0 <= i < k && q[i] == y;
  }

  /** How many elements at the front of s score at least as much as x: where a stable sort puts an x that comes last. */
  function TiesBefore<T>(x: T, s: seq<T>, score: T -> int): (k: nat)
    ensures k <= |s|
    ensures forall i :: 0 <= i < k ==> score(s[i]) >= score(x)
    ensures k < |s| ==> score(s[k]) < score(x)
  {
    if s == [] || score(x) > score(s[0]) then 0
    else 1 + TiesBefore(x, s[1..], score)
  }

  /** An already ordered list is left as it is. */
  lemma {:induction false} SortKeepsOrdered<T>(s: seq<T>, score: T -> int)
    requires SortedDesc(s, score)
    ensures SortByScore(s, score) == s
  {
    if s != [] {
      SortKeepsOrdered(s[1..], score);
      assert s == [s[0]] + s[1..];
    }
  }

  /**
   * Appending x to an ordered list and sorting puts x after every element
   * scoring at least as much (ties stay ahead of it) and before the rest.
   */
  lemma {:induction false} SortAppended<T>(s: seq<T>, x: T, score: T -> int)
    requires SortedDesc(s, score)
    ensures var k := TiesBefore(x, s, score);
      SortByScore(s + [x], score) == s[..k] + [x] + s[k..]
  {
    if s == [] {
      assert [x] == [x] + [];
    } else {
      assert (s + [x])[1..] == s[1..] + [x];
      SortAppended(s[1..], x, score);
      var k := TiesBefore(x, s[1..], score);
      var u := s[1..][..k] + [x] + s[1..][k..];
      assert SortByScore(s + [x], score) == Insert(s[0], u, score);
      if score(x) > score(s[0]) {
        InsertAheadOfX(s, x, score);
      } else {
        assert |s| > 1 ==> score(s[1]) <= score(s[0]);
        assert TiesBefore(x, s, score) == k + 1;
        InsertBehindTies(s, x, k, score);
      }
    }
  }

  /** The step of SortAppended when x beats the head: x goes to the very front. */
  lemma InsertAheadOfX<T>(s: seq<T>, x: T, score: T -> int)
    requires SortedDesc(s, score) && s != [] && score(x) > score(s[0])
    ensures TiesBefore(x, s, score) == 0 && TiesBefore(x, s[1..], score) == 0
    ensures Insert(s[0], [x] + s[1..], score) == [x] + s
  {
    assert Insert(s[0], s[1..], score) == s;
  }

  /** The step of SortAppended when the head ties with or beats x: the head stays in front of x and its ties. */
  lemma InsertBehindTies<T>(s: seq<T>, x: T, k: nat, score: T -> int)
    requires k < |s| && score(x) <= score(s[0]) && (k > 0 ==> score(s[1]) <= score(s[0]))
    ensures Insert(s[0], s[1..][..k] + [x] + s[1..][k..], score) == s[..k + 1] + [x] + s[k + 1..]
  {
    FrontOfSplice(s[1..], x, k);
    InsertAtFront(s[0], s[1..][..k] + [x] + s[1..][k..], score);
    SplitAfterHead(s, x, k);
  }

  /** The first element of t with x spliced in at k. */
  lemma FrontOfSplice<T>(t: seq<T>, x: T, k: nat)
    requires k <= |t|
    ensures (t[..k] + [x] + t[k..])[0] == if k > 0 then t[0] else x
  {
  }

  /** An element scoring at least as much as the head of s is inserted at the front. */
  lemma InsertAtFront<T>(y: T, u: seq<T>, score: T -> int)
    requires u != [] && score(y) >= score(u[0])
    ensures Insert(y, u, score) == [y] + u
  {
  }

  /** Cutting the tail of s at k is cutting s at k + 1. */
  lemma SplitAfterHead<T>(s: seq<T>, x: T, k: nat)
    requires k < |s|
    ensures [s[0]] + (s[1..][..k] + [x] + s[1..][k..]) == s[..k + 1] + [x] + s[k + 1..]
  {
    assert s[..k + 1] == [s[0]] + s[1..][..k];
    assert s[k + 1..] == s[1..][k..];
  }

  /** In an ordered list of at least n elements, x would land among the first n exactly when it beats the n-th. */
  lemma AppendedMakesTop<T>(s: seq<T>, x: T, n: nat, score: T -> int)
    requires SortedDesc(s, score) && 0 < n <= |s|
    ensures TiesBefore(x, s, score) < n <==> score(x) > score(s[n - 1])
  {
  }
}
