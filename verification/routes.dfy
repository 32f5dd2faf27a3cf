/** The `GET /api/restaurants` handler: read the filter record from the
    query string, run the candidate filter, rank the candidates. */
module Routes {
  import opened Wrappers
  import opened Schema
  import opened NumberParse
  import Storage
  import Scoring
  import Ranking
  import Seqs

  /** The query string: parameter names to their raw values. */
  type Query = map<string, string>

  /** Why no answer comes back: a numeric parameter whose value JavaScript
      would read as NaN, or in a form this model does not parse; or a
      parameter whose value the database refuses, which the handler
      answers with its error response. */
  datatype QueryError = Unparsable(param: string) | RejectedByDatabase(param: string)

  /** The five parameters the handler reads. */
  const FilterParams: set<string> := {"cuisine", "maxPrice", "lat", "lng", "radius"}

  function Param(q: Query, name: string): Option<string> {
    if name in q then Some(q[name]) else None
  }

  /** `req.query.x ? parse(req.query.x) : undefined`: a missing or empty
      value is absent; any other value is parsed. */
  function NumericParam<T>(q: Query, name: string, parse: string -> Option<T>): (r: Result<Option<T>, QueryError>)
    ensures (name !in q || q[name] == "") ==> r == Success(None)
    ensures name in q && q[name] != "" ==>
              (r.Success? <==> parse(q[name]).Some?) && (r.Success? ==> r.value == parse(q[name]))
    ensures r.Failure? ==> r.error == Unparsable(name)
  {
    match Param(q, name)
    case None => Success(None)
    case Some(raw) =>
      if raw == "" then Success(None)
      else
        match parse(raw)
        case None => Failure(Unparsable(name))
        case Some(v) => Success(Some(v))
  }

  /** Whether a numeric parameter is missing, empty, or readable by `parse`. */
  predicate Readable<T>(q: Query, name: string, parse: string -> Option<T>) {
    name !in q || q[name] == "" || parse(q[name]).Some?
  }

  /** The filter record built from the query string. The cuisine is taken
      verbatim; each numeric field is absent exactly when its parameter is
      missing or empty. */
  function ParseFilters(q: Query): (r: Result<SearchFilters, QueryError>)
    ensures r.Success? <==>
              && Readable(q, "maxPrice", ParseInt)
              && Readable(q, "lat", ParseFloat)
              && Readable(q, "lng", ParseFloat)
              && Readable(q, "radius", ParseFloat)
    ensures r.Success? ==>
              && r.value.cuisine == Param(q, "cuisine")
              && (r.value.maxPrice.None? <==> "maxPrice" !in q || q["maxPrice"] == "")
              && (r.value.maxPrice.Some? ==> r.value.maxPrice == ParseInt(q["maxPrice"]))
              && (r.value.lat.None? <==> "lat" !in q || q["lat"] == "")
              && (r.value.lat.Some? ==> r.value.lat == ParseFloat(q["lat"]))
              && (r.value.lng.None? <==> "lng" !in q || q["lng"] == "")
              && (r.value.lng.Some? ==> r.value.lng == ParseFloat(q["lng"]))
              && (r.value.radius.None? <==> "radius" !in q || q["radius"] == "")
              && (r.value.radius.Some? ==> r.value.radius == ParseFloat(q["radius"]))
    ensures r.Failure? ==> r.error.param in FilterParams
  {
    var maxPrice :- NumericParam(q, "maxPrice", ParseInt);
    var lat :- NumericParam(q, "lat", ParseFloat);
    var lng :- NumericParam(q, "lng", ParseFloat);
    var radius :- NumericParam(q, "radius", ParseFloat);
    Success(SearchFilters(Param(q, "cuisine"), maxPrice, lat, lng, radius))
  }

  /** No parameter other than the five filter parameters is read. */
  lemma ParseFiltersReadsOnlyFilterParams(q1: Query, q2: Query)
    requires forall name :: name in FilterParams ==> Param(q1, name) == Param(q2, name)
    ensures ParseFilters(q1) == ParseFilters(q2)
  {
    assert Param(q1, "cuisine") == Param(q2, "cuisine");
    NumericParamReadsOneParam(q1, q2, "maxPrice", ParseInt);
    NumericParamReadsOneParam(q1, q2, "lat", ParseFloat);
    NumericParamReadsOneParam(q1, q2, "lng", ParseFloat);
    NumericParamReadsOneParam(q1, q2, "radius", ParseFloat);
  }

  lemma NumericParamReadsOneParam<T>(q1: Query, q2: Query, name: string, parse: string -> Option<T>)
    requires Param(q1, name) == Param(q2, name)
    ensures NumericParam(q1, name, parse) == NumericParam(q2, name, parse)
  {
  }

  /** The handler's response: the top ten admitted store rows by score,
      best first, each with its own score. */
  function SearchEndpoint(store: seq<Restaurant>, q: Query): (r: Result<seq<ScoredRestaurant>, QueryError>)
    ensures r.Success? <==> ParseFilters(q).Success? && Storage.PriceBoundBinds(ParseFilters(q).value)
    ensures ParseFilters(q).Success? && r.Failure? ==> r.error == RejectedByDatabase("maxPrice")
    ensures r.Success? ==>
              var candidates := Storage.Search(store, ParseFilters(q).value);
              && |r.value| == Seqs.Min(Ranking.ResponseLimit, |candidates|)
              && Ranking.SortedByScore(r.value)
              && multiset(r.value) <= multiset(Ranking.ScoreAll(candidates))
              && (forall x, y ::
                    x in multiset(Ranking.ScoreAll(candidates)) - multiset(r.value) && y in r.value
                    ==> x.score <= y.score)
              && forall x :: x in r.value ==>
                   && x.restaurant in store
                   && Storage.Admits(ParseFilters(q).value, x.restaurant)
                   && x.score == Scoring.CalculateScore(x.restaurant)
  {
    var filters :- ParseFilters(q);
    if !Storage.PriceBoundBinds(filters) then Failure(RejectedByDatabase("maxPrice"))
    else
      var candidates := Storage.Search(store, filters);
      Ranking.RankIsTopK(candidates);
      Success(Ranking.Rank(candidates))
  }

  /** An empty query: no WHERE clause, so the response ranks the first 50
      rows of the store and returns min(10, n) of them. */
  lemma EmptyQueryRanksFirstRows(store: seq<Restaurant>)
    ensures ParseFilters(map[]) == Success(NoFilters)
    ensures SearchEndpoint(store, map[])
            == Success(Ranking.Rank(store[..Seqs.Min(Storage.ResultLimit, |store|)]))
  {
    Storage.SearchWithoutFilters(store);
  }

  /** `parseInt` truncates "2.5" to 2. */
  lemma ExampleMaxPrice()
    ensures ParseInt("2.5") == Some(2)
  {
    assert "" + "2" + ".5" == "2.5" && !HexPrefix("2" + ".5");
    assert DigitsValue("2") == 2;
    ParseIntReadsLeadingDigits("", "2", ".5");
  }

  lemma ExampleRadius()
    ensures ParseFloat("5") == Some(5.0)
  {
    ReadWholeNumber("5", []);
    assert "5" + [] == "5";
    SignedText("", "5");
    assert "" + "5" == "5";
  }

  /** An `e` with no digit after it is not an exponent: `parseFloat`
      stops before it. */
  lemma ExampleBareMarker()
    ensures ParseFloat("5e") == Some(5.0)
  {
    assert !ExponentNext("e") && "" + "5" + "e" == "5e" && DigitsValue("5") as real == 5.0 by {
      assert DigitsValue("5") == 5;
    }
    ParseFloatReadsInteger("", "5", "e");
  }

  lemma ExampleMarkerStartsWord()
    ensures ParseFloat("1.5east") == Some(1.5)
  {
    assert !ExponentNext("east") && "" + "1" + "." + "5" + "east" == "1.5east";
    ParseFloatReadsDecimal("", "1", "5", "east");
    OnePointFive();
  }

  lemma ExampleExponent()
    ensures ParseFloat("1.5e3") == Some(1500.0)
  {
    assert "" + "1" + "." + "5" + (['e'] + "" + "3" + []) == "1.5e3" by {
      assert ['e'] + "" + "3" + [] == "e3";
    }
    ParseFloatReadsExponent("", "1", ".", "5", 'e', "", "3", []);
    OnePointFive();
    ThousandFromDigit();
  }

  lemma ExampleExponentNoPoint()
    ensures ParseFloat("5e3") == Some(5000.0)
  {
    assert "" + "5" + "" + "" + (['e'] + "" + "3" + []) == "5e3" by {
      assert ['e'] + "" + "3" + [] == "e3";
    }
    ParseFloatReadsExponent("", "5", "", "", 'e', "", "3", []);
    FiveThousand();
  }

  lemma FiveThousand()
    ensures Scale(DecimalValue("5", ""), false, DigitsValue("3")) == 5000.0
  {
    assert DigitsValue("5") == 5 && DigitsValue("3") == 3;
    assert Pow10(0) == 1 && Pow10(3) == 1000;
  }

  lemma ExamplePlusSigns()
    ensures ParseFloat("+1.5e+3") == Some(1500.0)
  {
    assert "+" + "1" + "." + "5" + (['e'] + "+" + "3" + []) == "+1.5e+3" by {
      assert ['e'] + "+" + "3" + [] == "e+3";
    }
    ParseFloatReadsExponent("+", "1", ".", "5", 'e', "+", "3", []);
    OnePointFive();
    ThousandFromDigit();
  }

  lemma ThousandFromDigit()
    ensures Scale(1.5, false, DigitsValue("3")) == 1500.0
  {
    assert DigitsValue("3") == 3;
    assert Pow10(3) == 1000;
  }

  lemma OnePointFive()
    ensures DecimalValue("1", "5") == 1.5
  {
    assert DigitsValue("1") == 1 && DigitsValue("5") == 5;
    assert Pow10(1) == 10;
  }

  /** A query string as the client sends it, read field by field: the
      cuisine verbatim, "2.5" truncated to 2 by `parseInt`, an empty
      latitude read as absent, the radius as a number, and a parameter the
      handler does not read ignored. */
  lemma ExampleQuery()
    ensures ParseFilters(map["cuisine" := "Thai", "maxPrice" := "2.5", "lat" := "",
                             "radius" := "5", "sortBy" := "rating"])
            == Success(SearchFilters(Some("Thai"), Some(2), None, None, Some(5.0)))
  {
    var q := map["cuisine" := "Thai", "maxPrice" := "2.5", "lat" := "",
                 "radius" := "5", "sortBy" := "rating"];
    ExampleQueryParams(q);
    ExampleMaxPrice();
    ExampleRadius();
    var r := ParseFilters(q);
    assert r.Success?;
    assert r.value.cuisine == Some("Thai");
    assert r.value.maxPrice == Some(2);
    assert r.value.lat == None && r.value.lng == None;
    assert r.value.radius == Some(5.0);
  }

  lemma ExampleQueryParams(q: Query)
    requires q == map["cuisine" := "Thai", "maxPrice" := "2.5", "lat" := "",
                      "radius" := "5", "sortBy" := "rating"]
    ensures Param(q, "cuisine") == Some("Thai")
    ensures "maxPrice" in q && q["maxPrice"] == "2.5"
    ensures "lat" in q && q["lat"] == ""
    ensures "lng" !in q
    ensures "radius" in q && q["radius"] == "5"
  {
  }
}
