/** `calculateScore`: a weighted sum of three sub-scores, each normalised
    so that a row inside the documented ranges maps into [0, 1]. */
module Scoring {
  import opened Schema

  const RatingWeight: real := 0.4
  const PriceWeight: real := 0.3
  const SentimentWeight: real := 0.3

  /** Rating 0..5 normalised to 0..1. */
  function RatingScore(r: Restaurant): (s: real)
    ensures 0.0 <= r.rating <= 5.0 ==> 0.0 <= s <= 1.0
  {
    r.rating / 5.0
  }

  /** Price level 1..4 normalised to 1..0.25, cheaper scoring higher. */
  function PriceScore(r: Restaurant): (s: real)
    ensures 1 <= r.priceLevel <= 4 ==> 0.25 <= s <= 1.0
  {
    (5 - r.priceLevel) as real / 4.0
  }

  /** Sentiment -1..1 normalised to 0..1. */
  function SentimentScore(r: Restaurant): (s: real)
    ensures -1.0 <= r.sentimentScore <= 1.0 ==> 0.0 <= s <= 1.0
  {
    (r.sentimentScore + 1.0) / 2.0
  }

  /** Each sub-score orders rows as its field does: a higher rating or
      sentiment scores higher, a higher price level scores lower. */
  lemma SubScoresFollowFields(a: Restaurant, b: Restaurant)
    ensures a.rating <= b.rating <==> RatingScore(a) <= RatingScore(b)
    ensures a.priceLevel <= b.priceLevel <==> PriceScore(b) <= PriceScore(a)
    ensures a.sentimentScore <= b.sentimentScore <==> SentimentScore(a) <= SentimentScore(b)
  {
  }

  /** The recommendation score. Inside the documented ranges it lies in
      [0.075, 1.0]: the lower end is reached by a zero-star, price-4,
      sentiment -1 row, since the price term never drops below 0.25. */
  function CalculateScore(r: Restaurant): (s: real)
    ensures InDocumentedRanges(r) ==> 0.075 <= s <= 1.0
  {
    RatingWeight * RatingScore(r) + PriceWeight * PriceScore(r) + SentimentWeight * SentimentScore(r)
  }

  /** Both ends of [0.075, 1.0] are attained, so the bounds are tight. */
  lemma ScoreBoundsAttained(r: Restaurant)
    ensures CalculateScore(r.(rating := 0.0, priceLevel := 4, sentimentScore := -1.0)) == 0.075
    ensures CalculateScore(r.(rating := 5.0, priceLevel := 1, sentimentScore := 1.0)) == 1.0
  {
  }

  /** Raising the rating by d raises the score by 0.08 d; nothing else
      about the row matters. */
  lemma ScoreMonotoneInRating(r: Restaurant, rating: real)
    requires r.rating <= rating
    ensures CalculateScore(r) <= CalculateScore(r.(rating := rating))
    ensures CalculateScore(r.(rating := rating)) - CalculateScore(r) == 0.08 * (rating - r.rating)
  {
  }

  /** Raising the sentiment by d raises the score by 0.15 d. */
  lemma ScoreMonotoneInSentiment(r: Restaurant, sentiment: real)
    requires r.sentimentScore <= sentiment
    ensures CalculateScore(r) <= CalculateScore(r.(sentimentScore := sentiment))
    ensures CalculateScore(r.(sentimentScore := sentiment)) - CalculateScore(r)
            == 0.15 * (sentiment - r.sentimentScore)
  {
  }

  /** Each step up in price level lowers the score by 0.075. */
  lemma ScoreAntitoneInPrice(r: Restaurant, level: int)
    requires r.priceLevel <= level
    ensures CalculateScore(r.(priceLevel := level)) <= CalculateScore(r)
    ensures CalculateScore(r) - CalculateScore(r.(priceLevel := level))
            == 0.075 * (level - r.priceLevel) as real
  {
  }

  /** Only rating, price level and sentiment enter the score. */
  lemma ScoreDependsOnlyOnThreeFields(a: Restaurant, b: Restaurant)
    requires a.rating == b.rating && a.priceLevel == b.priceLevel
    requires a.sentimentScore == b.sentimentScore
    ensures CalculateScore(a) == CalculateScore(b)
  {
  }
}
