# FoodFinder search pipeline, in Dafny

A model of the restaurant search behind `GET /api/restaurants` in FoodFinder,
and of the two display helpers of the restaurant card. The pipeline has three
steps:

1. **Query parsing** (`routes.dfy`, `number_parse.dfy`). The handler builds a
   `SearchFilters` record from the query string. It reads five parameters:
   `cuisine` verbatim, `maxPrice` through `parseInt`, and `lat`, `lng` and
   `radius` through `parseFloat`. A missing or empty numeric parameter
   becomes an absent field.
2. **Candidate filter** (`storage.dfy`). `searchRestaurants` pushes up to
   four SQL conditions:
   - the categories array contains the cuisine as an exact element, unless
     the cuisine is empty or `'all'`;
   - `price_level <= maxPrice`, whenever `maxPrice` is a number;
   - two inclusive BETWEEN ranges of half-width `0.0145 * radius` degrees on
     latitude and on longitude, only when latitude, longitude and radius are
     all truthy (present and non-zero).

   The conditions are conjoined and the query is limited to 50 rows. The
   store is a sequence of rows. The query has no ORDER BY, so which 50 rows
   come back is unspecified; the model returns the first 50 matches in
   store order.
3. **Ranker** (`scoring.dfy`, `ranking.dfy`). Every candidate gets the score
   `0.4 * rating/5 + 0.3 * (5 - priceLevel)/4 + 0.3 * (sentiment + 1)/2`.
   The candidates are sorted by descending score and the first ten are
   returned, each as the unchanged row plus its score.

The card helpers (`restaurant_card.dfy`) are `getSentimentEmoji`, a
three-band classifier with bands split at 0.4 and 0.7, and `getPriceString`,
which gives `level` dollar signs.

Everything is pure and uses exact arithmetic. Rating, sentiment and
coordinates are `real`; price level and review count are `int`. Every
`SearchFilters` field is an `Option`.

### Notes on the code

- The location box is `0.0145 * radius` degrees either side of the origin,
  on latitude and on longitude alike; longitude gets no correction for
  latitude.
- The cuisine match is exact, case-sensitive array containment.
- The score uses only rating, price level and sentiment, weighted 0.4, 0.3
  and 0.3.
- The handler reads only `cuisine`, `maxPrice`, `lat`, `lng` and `radius`.
  Any other query parameter, `sortBy` included, has no effect.
- A negative radius makes both BETWEEN ranges empty, so it selects nothing
  (`Storage.NegativeRadiusSelectsNothing`).

### Observations

- The card calls `getSentimentEmoji` on the row's raw `sentimentScore`,
  whose documented range is -1 to 1 (client/src/components/RestaurantCard.tsx:38).
  It does not pass the 0-to-1 recommendation score. So every sentiment below
  0.4 shows the confused face. The model classifies whatever real number it
  is given.
- The schema declares `rating`, `lat`, `lng` and `sentiment_score` as
  `numeric`. A Postgres driver may return such columns as strings, and the
  map component wraps coordinates in `Number(...)`. If the values are
  strings, `sentimentScore + 1` in `calculateScore` would concatenate
  instead of add. The model assumes the numeric types the client interface
  declares.

## Model

| member | source | states |
|---|---|---|
| `Storage.Conditions` | server/storage.ts:18-52 | The conjunction of the pushed conditions admits exactly the rows `Admits` describes (cuisine as an element, price bound, both inclusive coordinate ranges, each only when it applies). The array is empty exactly when no predicate applies. |
| `Storage.Select` | server/storage.ts:55-57 | The WHERE clause returns only rows of the store that satisfy every condition, and every such row. |
| `Storage.SelectNoConditions` | server/storage.ts:55-58 | With no conditions nothing is filtered out. |
| `Storage.SelectAppend` | server/storage.ts:55-57 | Filtering distributes over concatenation, so store order is kept. |
| `Storage.Search` | server/storage.ts:12-63 | At most 50 rows. Each is a store row the filter record admits. Fewer than 50 rows means every admitted store row was returned. |
| `Storage.SearchIsPrefixOfMatches` | server/storage.ts:13-16 | The result is exactly the first min(50, m) of the m admitted rows, in store order. |
| `Storage.SearchWithoutFilters` | server/storage.ts:54-58 | With every filter field absent there is no WHERE clause, and the result is the store's first min(50, n) rows. |
| `Storage.SearchRespectsAppliedPredicates` | server/storage.ts:21-52 | Every returned row has the cuisine among its categories, its price level at most `maxPrice`, and latitude and longitude within `0.0145 * radius` of the origin (inclusive). Each of these holds whenever the predicate applies. |
| `Storage.SkippedPredicatesHaveNoEffect` | server/storage.ts:22-38 | An absent, empty or `'all'` cuisine gives the same result as no cuisine. A zero or missing latitude, longitude or radius gives the same result as no location. |
| `Storage.SearchKeepsAdmittedRowBeforeLimit` | server/storage.ts:12-60 | An admitted store row is returned whenever fewer than 50 earlier store rows were admitted. |
| `Storage.NegativeRadiusSelectsNothing` | server/storage.ts:40-51 | When the location predicate applies with a negative radius, no row is returned. |
| `Storage.BoxAroundLowerManhattan` | server/storage.ts:40-51 | Around (40.7128, -74.0060) with radius 5 the half-width is 0.0725 degrees. A row at the origin is admitted; a row at latitude 41.5 is not. |
| `Scoring.RatingScore` | server/routes.ts:43-44 | A rating in 0..5 maps into [0, 1]. |
| `Scoring.PriceScore` | server/routes.ts:46-47 | A price level in 1..4 maps into [0.25, 1]. That cheaper levels score higher is `Scoring.SubScoresFollowFields`. |
| `Scoring.SentimentScore` | server/routes.ts:49-50 | A sentiment in -1..1 maps into [0, 1]. |
| `Scoring.SubScoresFollowFields` | server/routes.ts:43-50 | A higher rating gives a higher rating sub-score and a higher sentiment a higher sentiment sub-score, while a higher price level gives a lower price sub-score; each in both directions. |
| `Scoring.CalculateScore` | server/routes.ts:42-58 | Inside the documented ranges the score lies in [0.075, 1.0]. |
| `Scoring.ScoreBoundsAttained` | server/routes.ts:42-58 | Both ends of [0.075, 1.0] are reached, so the bounds are tight. |
| `Scoring.ScoreMonotoneInRating` | server/routes.ts:43-57 | Raising the rating never lowers the score; it adds 0.08 per star. |
| `Scoring.ScoreMonotoneInSentiment` | server/routes.ts:49-57 | Raising the sentiment never lowers the score; it adds 0.15 per unit. |
| `Scoring.ScoreAntitoneInPrice` | server/routes.ts:46-57 | Raising the price level never raises the score; it subtracts 0.075 per level. |
| `Scoring.ScoreDependsOnlyOnThreeFields` | server/routes.ts:42-58 | Rows that agree on rating, price level and sentiment get the same score. |
| `Ranking.Insert` | server/routes.ts:30 | Inserting into a sequence sorted by descending score keeps it sorted and adds exactly the one element. |
| `Ranking.SortByScore` | server/routes.ts:30 | The sort returns a permutation of its input that is sorted by non-increasing score. |
| `Ranking.ScoreAll` | server/routes.ts:24-27 | Each candidate, in order, becomes the unchanged row paired with its own score; nothing is added or dropped. |
| `Ranking.Rank` | server/routes.ts:24-31 | The response has min(10, n) entries and is sorted by non-increasing score. It is a sub-multiset of the scored candidates. Each entry is an unchanged candidate row paired with that row's own score. |
| `Ranking.RankIsTopK` | server/routes.ts:30-31 | Every scored candidate left out of the response scores no higher than every entry in it. |
| `NumberParse.ParseInt` | server/routes.ts:12 | `parseInt` gives a number exactly when, after leading white space and a `-` or `+` sign, the text starts with a decimal digit (and is not a `0x` prefix). |
| `NumberParse.ParseFloat` | server/routes.ts:13-15 | `parseFloat` gives a number exactly when, after leading white space and a `-` or `+` sign, the text starts with a digit or with a point followed by a digit. |
| `NumberParse.ParseIntReadsLeadingDigits` | server/routes.ts:12 | `parseInt` reads a run of digits behind no sign, `-` or `+` as its value and ignores the non-digit text after it, so "2.5" reads as 2. |
| `NumberParse.ParseIntFormatInt` | server/routes.ts:12 | `parseInt` reads back the decimal spelling of every integer. |
| `NumberParse.ParseFloatReadsDecimal` | server/routes.ts:13-15 | `parseFloat` reads `whole.fraction` behind no sign, `-` or `+`, as whole + fraction / 10^digits and ignores the text after it, unless that text is an exponent part (`e` or `E`, an optional sign, then a digit). |
| `NumberParse.ParseFloatReadsInteger` | server/routes.ts:13-15 | `parseFloat` reads a run of digits behind no sign, `-` or `+` as that integer, whatever follows it other than a point, a digit or an exponent part; so "5e" reads as 5. |
| `NumberParse.ScanExponent` | server/routes.ts:13-15 | An exponent part is found only when `e` or `E` is followed by an optional sign and at least one digit; its digits run up to the first non-digit. |
| `NumberParse.ParseFloatReadsExponent` | server/routes.ts:13-15 | A number written `ds.frac` or as bare digits `ds`, behind no sign, `-` or `+`, and followed by an exponent part (`e` or `E`, no sign, `-` or `+`, digits) reads as that number multiplied by ten to the exponent, or divided by it when the exponent is negative. |
| `NumberParse.SkipsLeadingSpace` | server/routes.ts:12-15 | Both parsers read text behind leading white space exactly as they read the text alone, so " 40.7" (a `+` in the query string decodes to a space) reads as 40.7. |
| `NumberParse.ParseRejectsNonNumeric` | server/routes.ts:12-15 | Text that does not start with a digit, point, sign or white space reads as nothing. That is NaN for `parseInt`, and for `parseFloat` too except on text starting with `Infinity`. |
| `Routes.NumericParam` | server/routes.ts:12-15 | A missing or empty parameter is absent. Any other value is parsed, and the parser's result is kept. |
| `Routes.ParseFilters` | server/routes.ts:10-16 | Parsing succeeds exactly when every present, non-empty numeric parameter parses. The cuisine is taken verbatim. Each numeric field is absent exactly when its parameter is missing or empty, and otherwise holds the parsed value. |
| `Routes.ParseFiltersReadsOnlyFilterParams` | server/routes.ts:10-16 | Two queries that agree on `cuisine`, `maxPrice`, `lat`, `lng` and `radius` give the same filter record. |
| `Routes.ExampleMaxPrice` | server/routes.ts:12 | "2.5" as `maxPrice` is truncated to 2. |
| `Routes.ExampleBareMarker` | server/routes.ts:13-15 | "5e" as a coordinate or radius reads as 5, since a bare `e` is no exponent. |
| `Routes.ExampleMarkerStartsWord` | server/routes.ts:13-15 | "1.5east" reads as 1.5. |
| `Routes.ExampleExponent` | server/routes.ts:13-15 | "1.5e3" reads as 1500. |
| `Routes.ExampleExponentNoPoint` | server/routes.ts:13-15 | "5e3" reads as 5000. |
| `Routes.ExamplePlusSigns` | server/routes.ts:13-15 | "+1.5e+3" reads as 1500. |
| `Routes.ExampleQuery` | server/routes.ts:10-16 | A concrete query with an empty latitude and an unread `sortBy` gives the expected filter record. |
| `Routes.SearchEndpoint` | server/routes.ts:8-35 | The handler answers exactly when the query parses and any `maxPrice` fits the 32-bit `integer` column `price_level` (server/storage.ts:30-34); an out-of-range bound is a database error, answered with the error response. The answer has min(10, n) entries for the n rows the search returns, sorted by score, and is a sub-multiset of those rows scored. Every searched row left out scores no higher than every entry kept. Each entry is a store row the parsed filters admit, with its own score. |
| `Routes.EmptyQueryRanksFirstRows` | server/routes.ts:10-31 | An empty query parses to the all-absent filter record, and the answer ranks the store's first min(50, n) rows. |
| `RestaurantCard.GetSentimentEmoji` | client/src/components/RestaurantCard.tsx:10-14 | Smiling exactly when score >= 0.7, neutral exactly when 0.4 <= score < 0.7, confused exactly when score < 0.4, so the bands partition the reals. |
| `RestaurantCard.SentimentEmojiMonotone` | client/src/components/RestaurantCard.tsx:10-14 | A higher score never shows a less cheerful face. |
| `RestaurantCard.GlyphsDistinct` | client/src/components/RestaurantCard.tsx:11-13 | The three faces are drawn with different emoji. |
| `RestaurantCard.GetPriceString` | client/src/components/RestaurantCard.tsx:16 | The string has `level` characters, or none when `level <= 0` (padStart semantics), and every character is `$`. |
| `RestaurantCard.PriceStringsNest` | client/src/components/RestaurantCard.tsx:16 | A lower level's string is a prefix of a higher level's, and the string determines a non-negative level. |

## Left out

- HTTP routing, the 500 error response (server/routes.ts:32-35), `createServer` and all `console.log` calls: these are I/O.
- `getRestaurant` and `insertRestaurant` (server/storage.ts:65-79): thin database wrappers outside the search.
- Drizzle SQL generation and the database handle: the store is an in-memory sequence.
- Concurrency: the search is a single read.
- Which 50 rows the database returns when more match: it is unspecified without an ORDER BY. The model takes the first 50 in store order.
- The order of rows with equal scores: the contracts allow any. The sort in the model is stable, like JavaScript's.
- Floating point: rounding in `0.0145 * radius`, in the score, in `parseFloat`, and in `parseInt` above 2^53 (such a `maxPrice` is out of the column range either way), NaN, infinities and `toFixed` display formatting. The arithmetic is exact over reals.
- Routes.ParseFilters: where JavaScript would produce NaN, the model returns `Failure(Unparsable(param))`. JavaScript would instead pass NaN on. A NaN `maxPrice` still counts as a number and pushes `price_level <= NaN`, whose effect depends on the database. A NaN coordinate or radius is falsy and would drop the location predicate.
- NumberParse.ParseInt: a `0x` hexadecimal prefix reads as nothing, where JavaScript reads it in base 16.
- NumberParse.ParseFloat: text starting with `Infinity` reads as nothing, where JavaScript reads an infinity. The model's numbers are finite reals.
- Routes.SearchEndpoint: answers only when the query parses. The program also answers a query whose numeric parameter JavaScript reads as NaN (see the Routes.ParseFilters line). Which database values other than an out-of-range price bound make the query fail is not modelled.
- NumberParse.ParseRejectsNonNumeric: for `parseFloat` it also covers text starting with `Infinity`. The model reads that text as nothing, but JavaScript reads an infinity (see the NumberParse.ParseFloat line).
- NumberParse.TrimStart: skips only the ASCII blanks and line breaks, no-break space, byte-order mark and the two Unicode line and paragraph separators. JavaScript also skips the other Unicode space separators.
- A query parameter given more than once, which Express turns into an array: the query is a map from names to single strings.
- `numeric` columns arriving as strings: the model assumes numbers (see Observations).
- The card's layout, the search form, the map, the home page and the app shell: UI composition with no logic beyond the two helpers.
