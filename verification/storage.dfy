/** The candidate filter: `DatabaseStorage.searchRestaurants`.

    The search builds a list of SQL conditions from the filter record,
    conjoins them in a WHERE clause when there is at least one, and limits
    the result to 50 rows. The store is a sequence of rows; as the query has
    no ORDER BY, which 50 rows the database returns is unspecified, and the
    model returns the first 50 matches in sequence order. */
module Storage {
  import opened Wrappers
  import opened Schema
  import opened Seqs

  /** The LIMIT on the query. */
  const ResultLimit: nat := 50

  /** Degrees of latitude (and, with no cosine correction, of longitude)
      per kilometre of search radius. */
  const DegreesPerKm: real := 0.0145

  /** The range of `price_level`, a 32-bit `integer` column. A price bound
      outside it is a value the database refuses to compare with the
      column, so the query fails instead of returning rows. */
  const IntegerMin: int := -0x8000_0000
  const IntegerMax: int := 0x7FFF_FFFF

  predicate PriceBoundBinds(f: SearchFilters) {
    f.maxPrice.None? || IntegerMin <= f.maxPrice.value <= IntegerMax
  }

  /** One SQL condition pushed onto the conditions array. */
  datatype Condition =
    | CategoriesContain(wanted: string)  // categories::text[] @> ARRAY[wanted]
    | PriceAtMost(bound: int)            // price_level <= bound
    | LatBetween(lo: real, hi: real)     // lat BETWEEN lo AND hi
    | LngBetween(lo: real, hi: real)     // lng BETWEEN lo AND hi

  predicate Holds(c: Condition, r: Restaurant) {
    match c
    case CategoriesContain(wanted) => wanted in r.categories
    case PriceAtMost(bound) => r.priceLevel <= bound
    // SQL BETWEEN is inclusive and not symmetric: an empty range when lo > hi
    case LatBetween(lo, hi) => lo <= r.lat <= hi
    case LngBetween(lo, hi) => lo <= r.lng <= hi
  }

  /** The conjunction `and(...conditions)`. */
  predicate AllHold(cs: seq<Condition>, r: Restaurant) {
    forall i :: 0 <= i < |cs| ==> Holds(cs[i], r)
  }

  lemma AllHoldAppend(a: seq<Condition>, b: seq<Condition>)
    ensures forall r :: AllHold(a + b, r) <==> AllHold(a, r) && AllHold(b, r)
  {
    forall r
      ensures AllHold(a + b, r) <==> AllHold(a, r) && AllHold(b, r)
    {
      if AllHold(a, r) && AllHold(b, r) {
        forall i | 0 <= i < |a + b|
          ensures Holds((a + b)[i], r)
        {
          if i >= |a| {
            assert (a + b)[i] == b[i - |a|];
          }
        }
      }
      if AllHold(a + b, r) {
        forall i | 0 <= i < |a|
          ensures Holds(a[i], r)
        {
          assert (a + b)[i] == a[i];
        }
        forall i | 0 <= i < |b|
          ensures Holds(b[i], r)
        {
          assert (a + b)[|a| + i] == b[i];
        }
      }
    }
  }

  lemma AllHoldShort(c: Condition, d: Condition)
    ensures forall r :: AllHold([], r)
    ensures forall r :: AllHold([c], r) <==> Holds(c, r)
    ensures forall r :: AllHold([c, d], r) <==> Holds(c, r) && Holds(d, r)
  {
    forall r
      ensures AllHold([c], r) <==> Holds(c, r)
      ensures AllHold([c, d], r) <==> Holds(c, r) && Holds(d, r)
    {
      assert [c][0] == c;
      assert [c, d][0] == c && [c, d][1] == d;
    }
  }

  /** JavaScript truthiness of an optional number: present and non-zero. */
  predicate Truthy(x: Option<real>) {
    x.Some? && x.value != 0.0
  }

  /** The cuisine condition is pushed for a non-empty label other than 'all'. */
  predicate CuisineApplies(f: SearchFilters) {
    f.cuisine.Some? && f.cuisine.value != "" && f.cuisine.value != "all"
  }

  /** The price condition is pushed whenever `maxPrice` is a number. */
  predicate PriceApplies(f: SearchFilters) {
    f.maxPrice.Some?
  }

  /** The two coordinate conditions are pushed only when latitude, longitude
      and radius are all truthy. */
  predicate LocationApplies(f: SearchFilters) {
    Truthy(f.lat) && Truthy(f.lng) && Truthy(f.radius)
  }

  function HalfWidth(radius: real): real {
    DegreesPerKm * radius
  }

  /** What the filter record asks of a row, stated predicate by predicate
      without reference to how the conditions array is built. */
  predicate Admits(f: SearchFilters, r: Restaurant) {
    && (CuisineApplies(f) ==> f.cuisine.value in r.categories)
    && (PriceApplies(f) ==> r.priceLevel <= f.maxPrice.value)
    && (LocationApplies(f) ==>
          && f.lat.value - HalfWidth(f.radius.value) <= r.lat <= f.lat.value + HalfWidth(f.radius.value)
          && f.lng.value - HalfWidth(f.radius.value) <= r.lng <= f.lng.value + HalfWidth(f.radius.value))
  }

  /** The conditions array, in the order the code pushes onto it. Its
      conjunction admits exactly the rows the filter record asks for, and
      it is empty exactly when no predicate applies. */
  function Conditions(f: SearchFilters): (cs: seq<Condition>)
    ensures forall r :: AllHold(cs, r) <==> Admits(f, r)
    ensures |cs| == 0 <==> !CuisineApplies(f) && !PriceApplies(f) && !LocationApplies(f)
    ensures |cs| <= 4
  {
    var cuisine := if CuisineApplies(f) then [CategoriesContain(f.cuisine.value)] else [];
    var price := if PriceApplies(f) then [PriceAtMost(f.maxPrice.value)] else [];
    var location :=
      if LocationApplies(f) then
        var d := HalfWidth(f.radius.value);
        [LatBetween(f.lat.value - d, f.lat.value + d), LngBetween(f.lng.value - d, f.lng.value + d)]
      else [];
    ConditionsMeaning(f, cuisine, price, location);
    cuisine + price + location
  }

  lemma ConditionsMeaning(f: SearchFilters, cuisine: seq<Condition>, price: seq<Condition>,
                          location: seq<Condition>)
    requires cuisine == if CuisineApplies(f) then [CategoriesContain(f.cuisine.value)] else []
    requires price == if PriceApplies(f) then [PriceAtMost(f.maxPrice.value)] else []
    requires location ==
      if LocationApplies(f) then
        var d := HalfWidth(f.radius.value);
        [LatBetween(f.lat.value - d, f.lat.value + d), LngBetween(f.lng.value - d, f.lng.value + d)]
      else []
    ensures forall r :: AllHold(cuisine + price + location, r) <==> Admits(f, r)
  {
    AllHoldAppend(cuisine, price);
    AllHoldAppend(cuisine + price, location);
    forall r
      ensures AllHold(cuisine + price + location, r) <==> Admits(f, r)
    {
      if CuisineApplies(f) {
        AllHoldShort(cuisine[0], cuisine[0]);
      }
      if PriceApplies(f) {
        AllHoldShort(price[0], price[0]);
      }
      if LocationApplies(f) {
        AllHoldShort(location[0], location[1]);
      }
    }
  }

  /** The rows of `rows` satisfying every condition, in order (the WHERE). */
  function Select(rows: seq<Restaurant>, cs: seq<Condition>): (out: seq<Restaurant>)
    ensures |out| <= |rows|
    ensures forall r :: r in out ==> r in rows && AllHold(cs, r)
    ensures forall r :: r in rows && AllHold(cs, r) ==> r in out
  {
    if rows == [] then []
    else (if AllHold(cs, rows[0]) then [rows[0]] else []) + Select(rows[1..], cs)
  }

  /** `searchRestaurants`: WHERE only when some condition was pushed, then
      LIMIT 50. Every row it returns is a row of the store that the filter
      record admits; fewer than 50 rows means nothing admitted was left out. */
  function Search(store: seq<Restaurant>, f: SearchFilters): (rows: seq<Restaurant>)
    ensures |rows| <= ResultLimit
    ensures forall r :: r in rows ==> r in store && Admits(f, r)
    ensures |rows| < ResultLimit ==> forall r :: r in store && Admits(f, r) ==> r in rows
  {
    var cs := Conditions(f);
    var matching := if |cs| > 0 then Select(store, cs) else store;
    Take(matching, ResultLimit)
  }

  /** An empty conditions array selects every row. */
  lemma {:induction false} SelectNoConditions(rows: seq<Restaurant>)
    ensures Select(rows, []) == rows
  {
    if rows != [] {
      SelectNoConditions(rows[1..]);
      assert rows == [rows[0]] + rows[1..];
    }
  }

  /** Selection distributes over concatenation, so it keeps the store order. */
  lemma {:induction false} SelectAppend(a: seq<Restaurant>, b: seq<Restaurant>, cs: seq<Condition>)
    ensures Select(a + b, cs) == Select(a, cs) + Select(b, cs)
  {
    if a == [] {
      assert a + b == b;
    } else {
      assert (a + b)[0] == a[0];
      assert (a + b)[1..] == a[1..] + b;
      SelectAppend(a[1..], b, cs);
    }
  }

  /** The result is the first min(50, m) of the m admitted rows, in store
      order, whether or not a WHERE clause was attached. */
  lemma SearchIsPrefixOfMatches(store: seq<Restaurant>, f: SearchFilters)
    ensures var all := Select(store, Conditions(f));
            && |Search(store, f)| == Min(ResultLimit, |all|)
            && Search(store, f) == all[..|Search(store, f)|]
  {
    if |Conditions(f)| == 0 {
      SelectNoConditions(store);
    }
  }

  /** With no filter field set the query has no WHERE clause: the result is
      the store's first min(50, n) rows, unchanged. */
  lemma SearchWithoutFilters(store: seq<Restaurant>)
    ensures Search(store, NoFilters) == store[..Min(ResultLimit, |store|)]
  {
  }

  /** Every returned row satisfies each predicate that was applied: the
      exact cuisine label among its categories, the price bound, and both
      inclusive coordinate ranges. */
  lemma SearchRespectsAppliedPredicates(store: seq<Restaurant>, f: SearchFilters)
    ensures CuisineApplies(f) ==>
              forall r :: r in Search(store, f) ==> f.cuisine.value in r.categories
    ensures PriceApplies(f) ==>
              forall r :: r in Search(store, f) ==> r.priceLevel <= f.maxPrice.value
    ensures LocationApplies(f) ==>
              forall r :: r in Search(store, f) ==>
                && f.lat.value - DegreesPerKm * f.radius.value <= r.lat <= f.lat.value + DegreesPerKm * f.radius.value
                && f.lng.value - DegreesPerKm * f.radius.value <= r.lng <= f.lng.value + DegreesPerKm * f.radius.value
  {
  }

  /** A predicate that does not apply is skipped entirely: an absent, empty
      or 'all' cuisine is no cuisine filter, and a location with a zero or
      missing latitude, longitude or radius is no location filter. */
  lemma SkippedPredicatesHaveNoEffect(store: seq<Restaurant>, f: SearchFilters)
    ensures !CuisineApplies(f) ==> Search(store, f) == Search(store, f.(cuisine := None))
    ensures !LocationApplies(f) ==>
              Search(store, f) == Search(store, f.(lat := None, lng := None, radius := None))
  {
    if !CuisineApplies(f) {
      assert Conditions(f) == Conditions(f.(cuisine := None));
    }
    if !LocationApplies(f) {
      assert Conditions(f) == Conditions(f.(lat := None, lng := None, radius := None));
    }
  }

  /** Conditions are conjoined, and an admitted row is returned unless 50
      earlier rows of the store were admitted already. */
  lemma SearchKeepsAdmittedRowBeforeLimit(store: seq<Restaurant>, f: SearchFilters, i: int)
    requires 0 <= i < |store|
    requires Admits(f, store[i])
    requires |Select(store[..i], Conditions(f))| < ResultLimit
    ensures store[i] in Search(store, f)
  {
    var cs := Conditions(f);
    var before := Select(store[..i], cs);
    var after := Select(store[i + 1..], cs);
    assert store == store[..i] + [store[i]] + store[i + 1..];
    SelectAppend(store[..i] + [store[i]], store[i + 1..], cs);
    SelectAppend(store[..i], [store[i]], cs);
    assert Select([store[i]], cs) == [store[i]] by {
      assert AllHold(cs, store[i]);
      assert [store[i]][1..] == [];
    }
    var all := Select(store, cs);
    assert all == before + [store[i]] + after;
    assert all[|before|] == store[i];
    SearchIsPrefixOfMatches(store, f);
    assert Search(store, f)[|before|] == store[i];
  }

  /** A negative radius turns both BETWEEN ranges upside down, so no row
      can be returned. */
  lemma NegativeRadiusSelectsNothing(store: seq<Restaurant>, f: SearchFilters)
    requires LocationApplies(f) && f.radius.value < 0.0
    ensures forall r :: r !in Search(store, f)
  {
  }

  /** Around (40.7128, -74.0060) with a 5 km radius the box is 0.0725
      degrees wide each way: a row at the origin is admitted and a row at
      latitude 41.5, about 86 km north, is not. */
  lemma BoxAroundLowerManhattan(r: Restaurant)
    ensures var f := NoFilters.(lat := Some(40.7128), lng := Some(-74.0060), radius := Some(5.0));
            && HalfWidth(5.0) == 0.0725
            && Admits(f, r.(lat := 40.7128, lng := -74.0060))
            && !Admits(f, r.(lat := 41.5, lng := -74.0060))
  {
  }
}
