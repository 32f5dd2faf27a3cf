/** The ranker of the search endpoint: score every candidate, sort by
    descending score, keep the first ten. */
module Ranking {
  import opened Schema
  import opened Scoring
  import opened Seqs

  /** The response is sliced to this many rows. */
  const ResponseLimit: nat := 10

  /** `results.map(r => ({...r, score: calculateScore(r)}))`. */
  function ScoreAll(rows: seq<Restaurant>): (scored: seq<ScoredRestaurant>)
    ensures |scored| == |rows|
    ensures forall i :: 0 <= i < |rows| ==>
              scored[i].restaurant == rows[i] && scored[i].score == CalculateScore(rows[i])
  {
    seq(|rows|, i requires 0 <= i < |rows| => ScoredRestaurant(rows[i], CalculateScore(rows[i])))
  }

  /** Non-increasing by score. */
  predicate SortedByScore(s: seq<ScoredRestaurant>) {
    forall i, j :: 0 <= i < j < |s| ==> s[i].score >= s[j].score
  }

  /** A head scoring at least as high as everything after it keeps a
      sorted tail sorted. */
  lemma SortedCons(h: ScoredRestaurant, rest: seq<ScoredRestaurant>)
    requires SortedByScore(rest)
    requires forall y :: y in rest ==> y.score <= h.score
    ensures SortedByScore([h] + rest)
  {
    forall i, j | 0 <= i < j < |[h] + rest|
      ensures ([h] + rest)[i].score >= ([h] + rest)[j].score
    {
      assert ([h] + rest)[j] == rest[j - 1];
      if i > 0 {
        assert ([h] + rest)[i] == rest[i - 1];
      }
    }
  }

  /** Places `x` in front of the first element it scores at least as high
      as, so earlier rows stay ahead of later rows with the same score. */
  function Insert(x: ScoredRestaurant, s: seq<ScoredRestaurant>): (t: seq<ScoredRestaurant>)
    requires SortedByScore(s)
    ensures SortedByScore(t)
    ensures multiset(t) == multiset(s) + multiset{x}
  {
    if s == [] || x.score >= s[0].score then
      SortedCons(x, s);
      [x] + s
    else
      assert s == [s[0]] + s[1..];
      var rest := Insert(x, s[1..]);
      InsertStaysBelowHead(x, s, rest);
      SortedCons(s[0], rest);
      [s[0]] + rest
  }

  /** Inserting something that scores below the head of a sorted sequence
      into its tail yields nothing that outscores the head. */
  lemma InsertStaysBelowHead(x: ScoredRestaurant, s: seq<ScoredRestaurant>, rest: seq<ScoredRestaurant>)
    requires SortedByScore(s) && s != [] && x.score < s[0].score
    requires multiset(rest) == multiset(s[1..]) + multiset{x}
    ensures forall y :: y in rest ==> y.score <= s[0].score
  {
    forall y | y in rest
      ensures y.score <= s[0].score
    {
      assert y in multiset(rest);
      if y != x {
        assert y in multiset(s[1..]);
        var k :| 0 <= k < |s[1..]| && s[1..][k] == y;
        assert s[k + 1] == y;
      }
    }
  }

  /** `sort((a, b) => b.score - a.score)`: a permutation of its input,
      sorted by descending score. */
  function SortByScore(s: seq<ScoredRestaurant>): (t: seq<ScoredRestaurant>)
    ensures SortedByScore(t)
    ensures multiset(t) == multiset(s)
  {
    if s == [] then []
    else
      assert s == [s[0]] + s[1..];
      Insert(s[0], SortByScore(s[1..]))
  }

  /** The response: scored candidates, best first, at most ten of them,
      each an unchanged candidate row paired with its own score. */
  function Rank(candidates: seq<Restaurant>): (out: seq<ScoredRestaurant>)
    ensures |out| == Min(ResponseLimit, |candidates|)
    ensures SortedByScore(out)
    ensures multiset(out) <= multiset(ScoreAll(candidates))
    ensures forall x :: x in out ==>
              x.restaurant in candidates && x.score == CalculateScore(x.restaurant)
  {
    var sorted := SortByScore(ScoreAll(candidates));
    var out := Take(sorted, ResponseLimit);
    PrefixSubMultiset(sorted, |out|);
    ScoredEntries(candidates, out);
    out
  }

  lemma PrefixSubMultiset(s: seq<ScoredRestaurant>, k: nat)
    requires k <= |s|
    ensures multiset(s[..k]) <= multiset(s)
  {
    assert s == s[..k] + s[k..];
  }

  /** Whatever is drawn from the scored candidates is a candidate row with
      its own score. */
  lemma ScoredEntries(candidates: seq<Restaurant>, out: seq<ScoredRestaurant>)
    requires multiset(out) <= multiset(ScoreAll(candidates))
    ensures forall x :: x in out ==>
              x.restaurant in candidates && x.score == CalculateScore(x.restaurant)
  {
    forall x | x in out
      ensures x.restaurant in candidates && x.score == CalculateScore(x.restaurant)
    {
      assert x in multiset(ScoreAll(candidates));
      var i :| 0 <= i < |ScoreAll(candidates)| && ScoreAll(candidates)[i] == x;
      assert candidates[i] == x.restaurant;
    }
  }

  /** In a sorted sequence nothing after position k outscores anything
      before it. */
  lemma SortedSplit(s: seq<ScoredRestaurant>, k: nat)
    requires SortedByScore(s) && k <= |s|
    ensures forall x, y :: x in s[k..] && y in s[..k] ==> x.score <= y.score
  {
    forall x, y | x in s[k..] && y in s[..k]
      ensures x.score <= y.score
    {
      var j :| 0 <= j < |s[k..]| && s[k..][j] == x;
      var i :| 0 <= i < k && s[..k][i] == y;
      assert s[k + j] == x && s[i] == y;
    }
  }

  /** Top-k: every scored candidate left out of the response scores no
      higher than every candidate in it. */
  lemma RankIsTopK(candidates: seq<Restaurant>)
    ensures forall x, y ::
              (x in multiset(ScoreAll(candidates)) - multiset(Rank(candidates)) && y in Rank(candidates))
              ==> x.score <= y.score
  {
    var sorted := SortByScore(ScoreAll(candidates));
    var out := Rank(candidates);
    var k := |out|;
    assert out == sorted[..k];
    assert sorted == out + sorted[k..];
    assert multiset(ScoreAll(candidates)) - multiset(out) == multiset(sorted[k..]);
    SortedSplit(sorted, k);
  }
}
