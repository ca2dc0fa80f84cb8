/**
 * Ranking of scored opportunities: Python's `list.sort(key=score,
 * reverse=True)`, a stable sort by descending score, and the slice
 * `s[:limit]` that keeps the best entries.
 */
module Ranking {
  import opened Opportunities

  /** An opportunity with its composite match score. */
  datatype Scored = Scored(opportunity: Opportunity, score: real)

  /** Scores never increase along `s`. */
  predicate SortedByScore(s: seq<Scored>) {
    forall i, j :: 0 <= i < j < |s| ==> s[i].score >= s[j].score
  }

  /** The entries of `s` whose score is `k`, in their order in `s`. */
  function WithScore(s: seq<Scored>, k: real): (r: seq<Scored>)
    ensures |r| <= |s|
  {
    if s == [] then []
    else (if s[0].score == k then [s[0]] else []) + WithScore(s[1..], k)
  }

  /** The entries of score `k` are exactly the members of `s` that carry it. */
  lemma {:induction false} WithScoreMembers(s: seq<Scored>, k: real, x: Scored)
    ensures x in WithScore(s, k) <==> x in s && x.score == k
  {
    if s != [] {
      WithScoreMembers(s[1..], k, x);
      assert s == [s[0]] + s[1..];
    }
  }

  lemma {:induction false} WithScoreConcat(a: seq<Scored>, b: seq<Scored>, k: real)
    ensures WithScore(a + b, k) == WithScore(a, k) + WithScore(b, k)
  {
    if a == [] {
      assert a + b == b;
    } else {
      var head := if a[0].score == k then [a[0]] else [];
      var tail := WithScore(a[1..], k);
      assert (a + b)[0] == a[0] && (a + b)[1..] == a[1..] + b;
      WithScoreConcat(a[1..], b, k);
      assert WithScore(a + b, k) == head + (tail + WithScore(b, k));
      assert head + (tail + WithScore(b, k)) == (head + tail) + WithScore(b, k);
    }
  }

  /**
   * Inserts `x` after every entry whose score is at least its own, so that
   * equal scores keep their order of arrival.
   */
  function Insert(s: seq<Scored>, x: Scored): (r: seq<Scored>)
    ensures |r| == |s| + 1
  {
    if s == [] then [x]
    else if s[0].score >= x.score then [s[0]] + Insert(s[1..], x)
    else [x] + s
  }

  lemma {:induction false} InsertSorted(s: seq<Scored>, x: Scored)
    requires SortedByScore(s)
    ensures SortedByScore(Insert(s, x))
    ensures Insert(s, x) != [] && (Insert(s, x)[0] == x || (s != [] && Insert(s, x)[0] == s[0]))
  {
    if s != [] && s[0].score >= x.score {
      InsertSorted(s[1..], x);
    }
  }

  /** Entries of a sorted sequence all score below `v` once the first one does. */
  lemma {:induction false} BelowHasNoScore(s: seq<Scored>, v: real)
    requires forall i :: 0 <= i < |s| ==> s[i].score < v
    ensures WithScore(s, v) == []
  {
    if s != [] {
      BelowHasNoScore(s[1..], v);
    }
  }

  /** Inserting `x` in front of entries that all score below it. */
  lemma InsertInFront(s: seq<Scored>, x: Scored, k: real)
    requires SortedByScore(s) && s != [] && s[0].score < x.score
    ensures WithScore(Insert(s, x), k) == WithScore(s, k) + (if x.score == k then [x] else [])
  {
    assert Insert(s, x) == [x] + s;
    assert ([x] + s)[1..] == s;
    if x.score == k {
      BelowHasNoScore(s, k);
    }
  }

  /** Inserting `x` appends it to the entries sharing its score and leaves the others alone. */
  lemma {:induction false} InsertWithScore(s: seq<Scored>, x: Scored, k: real)
    requires SortedByScore(s)
    ensures WithScore(Insert(s, x), k) == WithScore(s, k) + (if x.score == k then [x] else [])
  {
    var mine := if x.score == k then [x] else [];
    if s == [] {
      assert WithScore([x], k) == mine + WithScore([], k);
    } else if s[0].score >= x.score {
      var head := if s[0].score == k then [s[0]] else [];
      var rest := Insert(s[1..], x);
      assert Insert(s, x) == [s[0]] + rest;
      assert ([s[0]] + rest)[1..] == rest;
      assert WithScore(Insert(s, x), k) == head + WithScore(rest, k);
      assert SortedByScore(s[1..]);
      InsertWithScore(s[1..], x, k);
      assert head + (WithScore(s[1..], k) + mine) == (head + WithScore(s[1..], k)) + mine;
    } else {
      InsertInFront(s, x, k);
    }
  }

  /** The stable sort by descending score (the result `list.sort(reverse=True)` gives). */
  function SortByScore(s: seq<Scored>): (r: seq<Scored>)
    ensures |r| == |s|
  {
    if s == [] then [] else Insert(SortByScore(s[..|s| - 1]), s[|s| - 1])
  }

  /**
   * The sort orders by non-increasing score, and for every score the entries
   * carrying it keep their original relative order; hence it is a permutation.
   */
  lemma {:induction false} SortByScoreCorrect(s: seq<Scored>)
    ensures SortedByScore(SortByScore(s))
    ensures forall k :: WithScore(SortByScore(s), k) == WithScore(s, k)
    ensures multiset(SortByScore(s)) == multiset(s)
  {
    if s != [] {
      var init, last := s[..|s| - 1], s[|s| - 1];
      assert s == init + [last];
      SortByScoreCorrect(init);
      InsertSorted(SortByScore(init), last);
      forall k ensures WithScore(SortByScore(s), k) == WithScore(s, k) {
        InsertWithScore(SortByScore(init), last, k);
        WithScoreConcat(init, [last], k);
      }
    }
    SameScoresSameMultiset(SortByScore(s), s);
  }

  /** An entry occurs in `s` as often as among the entries sharing its score. */
  lemma {:induction false} CountWithinScore(s: seq<Scored>, e: Scored)
    ensures multiset(s)[e] == multiset(WithScore(s, e.score))[e]
  {
    if s != [] {
      CountWithinScore(s[1..], e);
      assert s == [s[0]] + s[1..];
    }
  }

  /** Sequences that agree on the entries of every score hold the same entries. */
  lemma SameScoresSameMultiset(a: seq<Scored>, b: seq<Scored>)
    requires forall k :: WithScore(a, k) == WithScore(b, k)
    ensures multiset(a) == multiset(b)
  {
    forall e ensures multiset(a)[e] == multiset(b)[e] {
      CountWithinScore(a, e);
      CountWithinScore(b, e);
      assert WithScore(a, e.score) == WithScore(b, e.score);
    }
  }

  /** In a sorted sequence no entry scores above the first. */
  lemma HeadScoreIsMax(s: seq<Scored>, x: Scored)
    requires SortedByScore(s) && x in s
    ensures x.score <= s[0].score
  {
    var i :| 0 <= i < |s| && s[i] == x;
    if i > 0 {
      assert s[0].score >= s[i].score;
    }
  }

  /** Two sorted sequences that agree on the entries of every score start alike. */
  lemma SameScoresSameHead(a: seq<Scored>, b: seq<Scored>)
    requires SortedByScore(a) && SortedByScore(b) && a != [] && b != []
    requires forall k :: WithScore(a, k) == WithScore(b, k)
    ensures a[0] == b[0]
  {
    var m, n := a[0].score, b[0].score;
    var wa, wb := WithScore(a, m), WithScore(b, n);
    assert wa == [a[0]] + WithScore(a[1..], m);
    assert wb == [b[0]] + WithScore(b[1..], n);
    assert wa == WithScore(b, m) && wb == WithScore(a, n);
    WithScoreMembers(b, m, a[0]);
    WithScoreMembers(a, n, b[0]);
    HeadScoreIsMax(b, a[0]);
    HeadScoreIsMax(a, b[0]);
    assert m == n;
    assert wa[0] == wb[0];
  }

  /** Removing a common first entry keeps the agreement on every score. */
  lemma SameScoresSameTail(a: seq<Scored>, b: seq<Scored>)
    requires a != [] && b != [] && a[0] == b[0]
    requires forall k :: WithScore(a, k) == WithScore(b, k)
    ensures forall k :: WithScore(a[1..], k) == WithScore(b[1..], k)
  {
    forall k ensures WithScore(a[1..], k) == WithScore(b[1..], k) {
      var head := if a[0].score == k then [a[0]] else [];
      assert WithScore(a, k) == head + WithScore(a[1..], k);
      assert WithScore(b, k) == head + WithScore(b[1..], k);
      assert (head + WithScore(a[1..], k))[|head|..] == WithScore(a[1..], k);
      assert (head + WithScore(b[1..], k))[|head|..] == WithScore(b[1..], k);
    }
  }

  /**
   * A stable sort by descending score has only one possible result: two
   * sorted sequences that agree on the order of the entries of every score
   * are equal.
   */
  lemma {:induction false} StableSortUnique(a: seq<Scored>, b: seq<Scored>)
    requires SortedByScore(a) && SortedByScore(b)
    requires forall k :: WithScore(a, k) == WithScore(b, k)
    ensures a == b
    decreases |a|
  {
    SameScoresSameMultiset(a, b);
    assert |a| == |multiset(a)| == |multiset(b)| == |b|;
    if a != [] {
      SameScoresSameHead(a, b);
      SameScoresSameTail(a, b);
      StableSortUnique(a[1..], b[1..]);
      assert a == [a[0]] + a[1..] && b == [b[0]] + b[1..];
    }
  }

  /** A prefix of a sorted sequence holds its best entries: nothing left out scores above anything kept. */
  lemma SortedPrefixIsBest(s: seq<Scored>, n: nat)
    requires SortedByScore(s) && n <= |s|
    ensures forall x, y :: x in s[..n] && y in multiset(s) - multiset(s[..n]) ==> y.score <= x.score
  {
    assert s == s[..n] + s[n..];
    assert multiset(s) - multiset(s[..n]) == multiset(s[n..]);
    forall x, y | x in s[..n] && y in multiset(s) - multiset(s[..n])
      ensures y.score <= x.score
    {
      var i :| 0 <= i < n && s[..n][i] == x;
      assert y in s[n..];
      var j :| 0 <= j < |s| - n && s[n..][j] == y;
      assert s[i] == x && s[n + j] == y;
    }
  }

  /** Python's `s[:limit]`; a negative limit drops that many entries from the end. */
  function Truncate(s: seq<Scored>, limit: int): (r: seq<Scored>)
    ensures |r| <= |s| && r == s[..|r|]
    ensures limit >= 0 ==> |r| == if limit < |s| then limit else |s|
    ensures limit < 0 ==> |r| == if |s| + limit > 0 then |s| + limit else 0
  {
    if limit >= 0 then (if limit < |s| then s[..limit] else s)
    else if |s| + limit > 0 then s[..|s| + limit]
    else []
  }
}
