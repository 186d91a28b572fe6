/** `create_aggregated_data_df` (dashboard.py:14-17): the records grouped by
    `review_score`, each group aggregating the `review_score` column itself with
    "sum", so a bucket holds score times occurrences rather than a count. */
module ReviewScores {
  import opened Records
  import opened Groups

  /** The non-null `review_score` values, in record order. */
  function Scores(rs: seq<Record>): (ss: seq<int>)
    ensures forall s :: s in ss <==> exists x :: x in rs && x.reviewScore == Some(s)
  {
    if rs == [] then []
    else
      assert rs == [rs[0]] + rs[1..];
      (if rs[0].reviewScore.Some? then [rs[0].reviewScore.value] else []) + Scores(rs[1..])
  }

  /** The `review_score` column summed over the records whose score is `s`. */
  function ScoreSum(rs: seq<Record>, s: int): int {
    if rs == [] then 0
    else (if rs[0].reviewScore == Some(s) then rs[0].reviewScore.value else 0) + ScoreSum(rs[1..], s)
  }

  /** How many records have score `s`. */
  function ScoreCount(rs: seq<Record>, s: int): nat {
    if rs == [] then 0
    else (if rs[0].reviewScore == Some(s) then 1 else 0) + ScoreCount(rs[1..], s)
  }

  /** Summing the grouping key over its own group multiplies it by the group size. */
  lemma {:induction false} ScoreSumIsScoreTimesCount(rs: seq<Record>, s: int)
    ensures ScoreSum(rs, s) == s * ScoreCount(rs, s)
  {
    if rs != [] {
      ScoreSumIsScoreTimesCount(rs[1..], s);
      if rs[0].reviewScore == Some(s) {
        assert s * ScoreCount(rs, s) == s + s * ScoreCount(rs[1..], s);
      }
    }
  }

  /** A score occurs in the records exactly when some record carries it. */
  lemma {:induction false} ScoreCountPositive(rs: seq<Record>, s: int)
    ensures ScoreCount(rs, s) > 0 <==> exists x :: x in rs && x.reviewScore == Some(s)
  {
    if rs != [] {
      ScoreCountPositive(rs[1..], s);
      assert rs == [rs[0]] + rs[1..];
    }
  }

  /** The intended result of `create_aggregated_data_df(df)`, indexed by score in
      ascending order. */
  function AggregatedReviews(rs: seq<Record>): seq<Entry> {
    GroupBy(Scores(rs), s => ScoreSum(rs, s))
  }

  /** Scores appear once each, in ascending order, exactly when some record has
      them (null scores are dropped and absent scores get no bucket); each bucket
      holds its score times the number of records with that score. */
  lemma AggregatedReviewsRows(rs: seq<Record>)
    ensures KeysIncreasing(AggregatedReviews(rs))
    ensures forall s :: s in KeySet(AggregatedReviews(rs)) <==> exists x :: x in rs && x.reviewScore == Some(s)
    ensures forall e :: e in AggregatedReviews(rs) ==>
      e.value == e.key * ScoreCount(rs, e.key) && ScoreCount(rs, e.key) > 0
  {
    forall e | e in AggregatedReviews(rs)
      ensures e.value == e.key * ScoreCount(rs, e.key) && ScoreCount(rs, e.key) > 0
    {
      ScoreSumIsScoreTimesCount(rs, e.key);
      ScoreCountPositive(rs, e.key);
      assert e.key in KeySet(AggregatedReviews(rs));
    }
  }
}
