/** The records the search pipeline works on: one row of the `restaurants`
    table, the filter record the endpoint builds from the query string, and
    a row augmented with its recommendation score. */
module Schema {
  import opened Wrappers

  /** One row of the `restaurants` table. The `numeric` columns (rating,
      coordinates, sentiment) are exact reals here; the `integer` columns
      are unbounded integers. */
  datatype Restaurant = Restaurant(
    id: int,
    name: string,
    rating: real,
    totalReviews: int,
    priceLevel: int,
    categories: seq<string>,
    address: string,
    lat: real,
    lng: real,
    reviews: seq<string>,
    sentimentScore: real,
    placeUrl: string
  )

  /** The search request. Every field may be absent (`undefined`). The price
      bound is an integer because the only producer of this record fills it
      from `parseInt`. */
  datatype SearchFilters = SearchFilters(
    cuisine: Option<string>,
    maxPrice: Option<int>,
    lat: Option<real>,
    lng: Option<real>,
    radius: Option<real>
  )

  /** The filter record with every field absent. */
  const NoFilters := SearchFilters(None, None, None, None, None)

  /** A row of the response: the stored row, unchanged, plus its score. */
  datatype ScoredRestaurant = ScoredRestaurant(restaurant: Restaurant, score: real)

  /** The ranges the schema comments and the scoring normalisation assume:
      rating 0 to 5, price level 1 to 4, sentiment -1 to 1. */
  predicate InDocumentedRanges(r: Restaurant) {
    && 0.0 <= r.rating <= 5.0
    && 1 <= r.priceLevel <= 4
    && -1.0 <= r.sentimentScore <= 1.0
  }
}
