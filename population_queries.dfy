/** The SQL statements of `PopulationDAO`, evaluated over the two tables:
    each function returns the result set the store hands back. */
module PopulationQueries {
  import opened Tables
  import opened KeyOrder

  /** A value of a column that may be SQL NULL. */
  datatype Nullable = Null | Value(n: int)

  /** SQL `SUM`: NULLs are skipped, and the sum of no values is NULL. */
  function SqlSum(xs: seq<Nullable>): Nullable
  {
    if xs == [] then Null
    else match (xs[0], SqlSum(xs[1..]))
      case (Null, s) => s
      case (Value(a), Null) => Value(a)
      case (Value(a), Value(b)) => Value(a + b)
  }

  /** SQL `COALESCE(v, d)`. */
  function Coalesce(v: Nullable, d: int): int
  {
    match v
    case Null => d
    case Value(n) => n
  }

  /** SQL `a - b`: NULL when either side is. */
  function SqlMinus(a: Nullable, b: Nullable): Nullable
  {
    match (a, b)
    case (Value(x), Value(y)) => Value(x - y)
    case _ => Null
  }

  /** JDBC `ResultSet.getLong`: a NULL column reads as 0. */
  function GetLong(v: Nullable): int
  {
    match v
    case Null => 0
    case Value(n) => n
  }

  ghost predicate AllNull(xs: seq<Nullable>)
  {
    forall i :: 0 <= i < |xs| ==> xs[i] == Null
  }

  /** Reference: the sum of the non-NULL values, counting NULL as 0. */
  function NullAsZeroSum(xs: seq<Nullable>): int
  {
    if xs == [] then 0 else GetLong(xs[0]) + NullAsZeroSum(xs[1..])
  }

  /** SUM is NULL exactly when every value is NULL, and otherwise the sum of
      the values; so `COALESCE(SUM(x), 0)` counts a NULL as 0. */
  lemma {:induction false} SqlSumSpec(xs: seq<Nullable>)
    ensures SqlSum(xs) == if AllNull(xs) then Null else Value(NullAsZeroSum(xs))
    ensures Coalesce(SqlSum(xs), 0) == NullAsZeroSum(xs)
  {
    if xs != [] {
      SqlSumSpec(xs[1..]);
      if AllNull(xs[1..]) && xs[0] == Null {
        forall i | 0 <= i < |xs| ensures xs[i] == Null {
          if i > 0 { assert xs[i] == xs[1..][i - 1]; }
        }
      }
    }
  }

  lemma {:induction false} NullAsZeroSumConcat(a: seq<Nullable>, b: seq<Nullable>)
    ensures NullAsZeroSum(a + b) == NullAsZeroSum(a) + NullAsZeroSum(b)
  {
    if a == [] {
      assert a + b == b;
    } else {
      assert (a + b)[1..] == a[1..] + b;
      NullAsZeroSumConcat(a[1..], b);
    }
  }

  // ---------------------------------------------------------------------
  // Columns selected with a WHERE clause

  /** The population column of the countries whose `col` equals `v`. */
  function CountryPopulationColumn(countries: seq<Country>, col: CountryColumn, v: string): seq<Nullable>
  {
    if countries == [] then []
    else (if CountryField(countries[0], col) == v then [Value(countries[0].population)] else [])
         + CountryPopulationColumn(countries[1..], col, v)
  }

  /** The population column of the cities whose `col` equals `v`. */
  function CityPopulationColumn(cities: seq<City>, col: CityColumn, v: string): seq<Nullable>
  {
    if cities == [] then []
    else (if CityField(cities[0], col) == v then [Value(cities[0].population)] else [])
         + CityPopulationColumn(cities[1..], col, v)
  }

  /** The number of countries whose `col` is `v`. */
  function CountCountries(countries: seq<Country>, col: CountryColumn, v: string): nat
  {
    if countries == [] then 0
    else (if CountryField(countries[0], col) == v then 1 else 0) + CountCountries(countries[1..], col, v)
  }

  /** The number of cities whose `col` is `v`. */
  function CountCities(cities: seq<City>, col: CityColumn, v: string): nat
  {
    if cities == [] then 0
    else (if CityField(cities[0], col) == v then 1 else 0) + CountCities(cities[1..], col, v)
  }

  /** The selected column holds one non-NULL value per matching country, is
      empty exactly when no country matches, and adds up to the reference sum. */
  lemma {:induction false} CountryColumnSpec(countries: seq<Country>, col: CountryColumn, v: string)
    ensures var xs := CountryPopulationColumn(countries, col, v);
      && |xs| == CountCountries(countries, col, v)
      && (xs == [] <==> v !in CountryValues(countries, col))
      && (forall i :: 0 <= i < |xs| ==> xs[i] != Null)
      && NullAsZeroSum(xs) == CountryPopulationWhere(countries, col, v)
  {
    if countries != [] {
      var rest := countries[1..];
      CountryColumnSpec(rest, col, v);
      var head: seq<Nullable> := if CountryField(countries[0], col) == v then [Value(countries[0].population)] else [];
      NullAsZeroSumConcat(head, CountryPopulationColumn(rest, col, v));
      assert CountryValues(countries, col) == {CountryField(countries[0], col)} + CountryValues(rest, col) by {
        assert countries == [countries[0]] + rest;
      }
    }
  }

  /** The same for the city table. */
  lemma {:induction false} CityColumnSpec(cities: seq<City>, col: CityColumn, v: string)
    ensures var xs := CityPopulationColumn(cities, col, v);
      && |xs| == CountCities(cities, col, v)
      && (xs == [] <==> forall c :: c in cities ==> CityField(c, col) != v)
      && (forall i :: 0 <= i < |xs| ==> xs[i] != Null)
      && NullAsZeroSum(xs) == CityPopulationWhere(cities, col, v)
  {
    if cities != [] {
      var rest := cities[1..];
      CityColumnSpec(rest, col, v);
      var head: seq<Nullable> := if CityField(cities[0], col) == v then [Value(cities[0].population)] else [];
      NullAsZeroSumConcat(head, CityPopulationColumn(rest, col, v));
      assert cities == [cities[0]] + rest;
    }
  }

  /** A column of non-NULL values sums to NULL only when it is empty. */
  lemma SqlSumOfValues(xs: seq<Nullable>)
    requires forall i :: 0 <= i < |xs| ==> xs[i] != Null
    ensures SqlSum(xs) == if xs == [] then Null else Value(NullAsZeroSum(xs))
  {
    SqlSumSpec(xs);
    if xs != [] {
      assert xs[0] != Null;
    }
  }

  // ---------------------------------------------------------------------
  // Single-entity totals

  /** The world total: one SUM over the whole country table, no grouping. */
  function WorldPopulationQuery(db: Database): seq<Nullable>
  {
    [SqlSum(CountryPopulations(db.countries))]
  }

  /** The `Population` column of the whole country table. */
  function CountryPopulations(countries: seq<Country>): seq<Nullable>
  {
    if countries == [] then [] else [Value(countries[0].population)] + CountryPopulations(countries[1..])
  }

  /** The continent and region totals: one SUM over the countries whose
      `col` equals the argument, no grouping. */
  function CountrySumQuery(db: Database, col: CountryColumn, v: string): seq<Nullable>
  {
    [SqlSum(CountryPopulationColumn(db.countries, col, v))]
  }

  /** The district total: one SUM over the cities of the district, no grouping. */
  function DistrictPopulationQuery(db: Database, district: string): seq<Nullable>
  {
    [SqlSum(CityPopulationColumn(db.cities, District, district))]
  }

  /** The country lookup: the population of each country of that name. */
  function CountryPopulationQuery(db: Database, name: string): seq<Nullable>
  {
    CountryPopulationColumn(db.countries, Name, name)
  }

  /** The city lookup: the population of each city of that name. */
  function CityPopulationQuery(db: Database, name: string): seq<Nullable>
  {
    CityPopulationColumn(db.cities, CityName, name)
  }

  /** The world total is one row, the sum of every country's population
      (0 read back for an empty table). */
  lemma {:induction false} WorldPopulationQuerySpec(db: Database)
    ensures |WorldPopulationQuery(db)| == 1
    ensures GetLong(WorldPopulationQuery(db)[0]) == WorldPopulation(db.countries)
  {
    WorldColumnSum(db.countries);
    SqlSumSpec(CountryPopulations(db.countries));
  }

  lemma {:induction false} WorldColumnSum(countries: seq<Country>)
    ensures NullAsZeroSum(CountryPopulations(countries)) == WorldPopulation(countries)
  {
    if countries != [] {
      WorldColumnSum(countries[1..]);
      NullAsZeroSumConcat([Value(countries[0].population)], CountryPopulations(countries[1..]));
    }
  }

  /** A continent or region total is one row whatever the argument: the sum
      over the matching countries, read back as 0 when none matches. */
  lemma CountrySumQuerySpec(db: Database, col: CountryColumn, v: string)
    ensures |CountrySumQuery(db, col, v)| == 1
    ensures GetLong(CountrySumQuery(db, col, v)[0]) == CountryPopulationWhere(db.countries, col, v)
    ensures v !in CountryValues(db.countries, col) ==> CountrySumQuery(db, col, v)[0] == Null
  {
    CountryColumnSpec(db.countries, col, v);
    SqlSumOfValues(CountryPopulationColumn(db.countries, col, v));
  }

  /** A district total is one row whatever the argument: the sum over the
      district's cities, read back as 0 when none matches. */
  lemma DistrictPopulationQuerySpec(db: Database, district: string)
    ensures |DistrictPopulationQuery(db, district)| == 1
    ensures GetLong(DistrictPopulationQuery(db, district)[0]) == CityPopulationWhere(db.cities, District, district)
    ensures (forall c :: c in db.cities ==> c.district != district) ==> DistrictPopulationQuery(db, district)[0] == Null
  {
    CityColumnSpec(db.cities, District, district);
    SqlSumOfValues(CityPopulationColumn(db.cities, District, district));
  }

  /** A country lookup is no aggregate: one non-NULL row per country of that
      name, so none for an unknown name and several for a repeated one. */
  lemma CountryPopulationQuerySpec(db: Database, name: string)
    ensures |CountryPopulationQuery(db, name)| == CountCountries(db.countries, Name, name)
    ensures CountryPopulationQuery(db, name) == [] <==> forall c :: c in db.countries ==> c.name != name
    ensures forall i :: 0 <= i < |CountryPopulationQuery(db, name)| ==> CountryPopulationQuery(db, name)[i] != Null
  {
    CountryColumnSpec(db.countries, Name, name);
    if CountryPopulationQuery(db, name) != [] {
      var c :| c in db.countries && CountryField(c, Name) == name;
    }
  }

  /** A city lookup is no aggregate: one non-NULL row per city of that name. */
  lemma CityPopulationQuerySpec(db: Database, name: string)
    ensures |CityPopulationQuery(db, name)| == CountCities(db.cities, CityName, name)
    ensures CityPopulationQuery(db, name) == [] <==> forall c :: c in db.cities ==> c.name != name
    ensures forall i :: 0 <= i < |CityPopulationQuery(db, name)| ==> CityPopulationQuery(db, name)[i] != Null
  {
    CityColumnSpec(db.cities, CityName, name);
  }

  // ---------------------------------------------------------------------
  // Breakdowns into city and non-city population

  /** One row of a breakdown's result set: the group key and three columns. */
  datatype BreakdownRow = BreakdownRow(name: string, totalPopulation: Nullable, cityPopulation: Nullable, nonCityPopulation: Nullable)

  function RowName(r: BreakdownRow): string { r.name }

  /** A row of the derived table that pre-sums city populations per country code. */
  datatype CodeTotal = CodeTotal(countryCode: string, totalCityPop: Nullable)

  /** The distinct country codes that occur in the city table. */
  function CityCodes(cities: seq<City>): seq<string>
  {
    if cities == [] then []
    else
      var rest := CityCodes(cities[1..]);
      if cities[0].countryCode in rest then rest else [cities[0].countryCode] + rest
  }

  /** The pre-summed city table: one row per code that has cities. */
  function CityTotalsByCode(cities: seq<City>): seq<CodeTotal>
  {
    var codes := CityCodes(cities);
    seq(|codes|, i requires 0 <= i < |codes| => CodeTotal(codes[i], SqlSum(CityPopulationColumn(cities, CountryCode, codes[i]))))
  }

  /** A country joined, by code, to a row of the pre-summed city table. */
  datatype JoinedRow = JoinedRow(country: Country, totalCityPop: Nullable)

  /** The `city_pop` rows whose code is the country's, joined to it. */
  function Matches(c: Country, totals: seq<CodeTotal>): seq<JoinedRow>
  {
    if totals == [] then []
    else (if totals[0].countryCode == c.code then [JoinedRow(c, totals[0].totalCityPop)] else [])
         + Matches(c, totals[1..])
  }

  /** LEFT JOIN: every match, or the country once with NULL when none. */
  function LeftJoin(countries: seq<Country>, totals: seq<CodeTotal>): seq<JoinedRow>
  {
    if countries == [] then []
    else
      var m := Matches(countries[0], totals);
      (if m == [] then [JoinedRow(countries[0], Null)] else m) + LeftJoin(countries[1..], totals)
  }

  /** `co.Population` over the joined rows of the group `k`. */
  function GroupCountryPops(joined: seq<JoinedRow>, col: CountryColumn, k: string): seq<Nullable>
  {
    if joined == [] then []
    else (if CountryField(joined[0].country, col) == k then [Value(joined[0].country.population)] else [])
         + GroupCountryPops(joined[1..], col, k)
  }

  /** `city_pop.total_city_pop` over the joined rows of the group `k`. */
  function GroupCityPops(joined: seq<JoinedRow>, col: CountryColumn, k: string): seq<Nullable>
  {
    if joined == [] then []
    else (if CountryField(joined[0].country, col) == k then [joined[0].totalCityPop] else [])
         + GroupCityPops(joined[1..], col, k)
  }

  /** The group keys of the joined rows, one per row. */
  function JoinedKeys(joined: seq<JoinedRow>, col: CountryColumn): seq<string>
  {
    seq(|joined|, i requires 0 <= i < |joined| => CountryField(joined[i].country, col))
  }

  /** The select list for the group `k`. */
  function GroupRow(joined: seq<JoinedRow>, col: CountryColumn, k: string): BreakdownRow
  {
    var total := SqlSum(GroupCountryPops(joined, col, k));
    var city := Coalesce(SqlSum(GroupCityPops(joined, col, k)), 0);
    BreakdownRow(k, total, Value(city), SqlMinus(total, Value(city)))
  }

  /** The continent (`col == Continent`) and region (`col == Region`)
      breakdowns: city populations pre-summed per code, LEFT JOINed onto the
      countries by code, grouped by `col` and ordered by it. */
  function GroupedBreakdownQuery(db: Database, col: CountryColumn, lt: (string, string) -> bool): seq<BreakdownRow>
  {
    var joined := LeftJoin(db.countries, CityTotalsByCode(db.cities));
    var keys := SortedKeys(JoinedKeys(joined, col), lt);
    seq(|keys|, i requires 0 <= i < |keys| => GroupRow(joined, col, keys[i]))
  }

  /** The country breakdown's row for one country: its own population, and
      the summed population of the city rows joined to it. */
  function CountryRow(c: Country, cities: seq<City>): BreakdownRow
  {
    var joined := CityPopulationColumn(cities, CountryCode, c.code);
    var city := Coalesce(SqlSum(if joined == [] then [Null] else joined), 0);
    BreakdownRow(c.name, Value(c.population), Value(city), SqlMinus(Value(c.population), Value(city)))
  }

  function CountryRows(countries: seq<Country>, cities: seq<City>): seq<BreakdownRow>
  {
    seq(|countries|, i requires 0 <= i < |countries| => CountryRow(countries[i], cities))
  }

  /** The country breakdown: each country LEFT JOINed by code to its city
      rows, grouped by code and ordered by name. `Code` being the primary
      key, each group is one country row. */
  function CountryBreakdownQuery(db: Database, lt: (string, string) -> bool): seq<BreakdownRow>
  {
    SortBy(CountryRows(db.countries, db.cities), RowName, lt)
  }

  // --- the join ---------------------------------------------------------

  /** The codes with cities are listed once each. */
  lemma {:induction false} CityCodesSpec(cities: seq<City>)
    ensures forall i, j :: 0 <= i < j < |CityCodes(cities)| ==> CityCodes(cities)[i] != CityCodes(cities)[j]
    ensures forall code :: code in CityCodes(cities) <==> exists c :: c in cities && c.countryCode == code
  {
    if cities != [] {
      CityCodesSpec(cities[1..]);
      assert cities == [cities[0]] + cities[1..];
    }
  }

  /** Against a table with distinct codes a country has at most one match. */
  lemma {:induction false} MatchesOfDistinct(c: Country, totals: seq<CodeTotal>)
    requires forall i, j :: 0 <= i < j < |totals| ==> totals[i].countryCode != totals[j].countryCode
    ensures (forall i :: 0 <= i < |totals| ==> totals[i].countryCode != c.code) ==> Matches(c, totals) == []
    ensures forall i :: 0 <= i < |totals| && totals[i].countryCode == c.code ==> Matches(c, totals) == [JoinedRow(c, totals[i].totalCityPop)]
  {
    if totals != [] {
      MatchesOfDistinct(c, totals[1..]);
      if totals[0].countryCode == c.code {
        assert forall i :: 0 <= i < |totals[1..]| ==> totals[1..][i].countryCode != c.code by {
          forall i | 0 <= i < |totals[1..]| ensures totals[1..][i].countryCode != c.code {
            assert totals[1..][i] == totals[i + 1];
          }
        }
      } else {
        forall i | 0 <= i < |totals| && totals[i].countryCode == c.code
          ensures Matches(c, totals) == [JoinedRow(c, totals[i].totalCityPop)]
        {
          assert totals[1..][i - 1] == totals[i];
        }
      }
    }
  }

  /** The joined row of one country: its code's city total, NULL when the
      code has no cities. */
  function JoinedFor(c: Country, cities: seq<City>): JoinedRow
  {
    JoinedRow(c, if c.code in CityCodes(cities) then Value(CityPopulationWhere(cities, CountryCode, c.code)) else Null)
  }

  /** Because `city_pop` is grouped by code, each country meets it exactly once. */
  lemma JoinOneCountry(c: Country, cities: seq<City>)
    ensures (var m := Matches(c, CityTotalsByCode(cities)); if m == [] then [JoinedRow(c, Null)] else m) == [JoinedFor(c, cities)]
  {
    var totals := CityTotalsByCode(cities);
    var codes := CityCodes(cities);
    CityCodesSpec(cities);
    MatchesOfDistinct(c, totals);
    if c.code in codes {
      var i :| 0 <= i < |codes| && codes[i] == c.code;
      assert totals[i].countryCode == c.code;
      CityColumnSpec(cities, CountryCode, c.code);
      var city :| city in cities && city.countryCode == c.code;
      SqlSumOfValues(CityPopulationColumn(cities, CountryCode, c.code));
    } else {
      assert forall i :: 0 <= i < |totals| ==> totals[i].countryCode != c.code;
    }
  }

  /** The join keeps every country exactly once, in table order. */
  lemma {:induction false} LeftJoinOneRowPerCountry(countries: seq<Country>, cities: seq<City>)
    ensures var joined := LeftJoin(countries, CityTotalsByCode(cities));
      |joined| == |countries| && forall i :: 0 <= i < |countries| ==> joined[i] == JoinedFor(countries[i], cities)
  {
    if countries != [] {
      JoinOneCountry(countries[0], cities);
      LeftJoinOneRowPerCountry(countries[1..], cities);
      var joined := LeftJoin(countries, CityTotalsByCode(cities));
      var rest := LeftJoin(countries[1..], CityTotalsByCode(cities));
      assert joined == [JoinedFor(countries[0], cities)] + rest;
      forall i | 0 <= i < |countries| ensures joined[i] == JoinedFor(countries[i], cities) {
        if i > 0 { assert countries[1..][i - 1] == countries[i]; }
      }
    }
  }

  /** The join of a non-empty country table starts with its first country's row. */
  lemma LeftJoinCons(countries: seq<Country>, cities: seq<City>)
    requires countries != []
    ensures LeftJoin(countries, CityTotalsByCode(cities))
         == [JoinedFor(countries[0], cities)] + LeftJoin(countries[1..], CityTotalsByCode(cities))
  {
    JoinOneCountry(countries[0], cities);
  }

  /** Over the join, the group's country column adds up to the group's
      population; it holds no NULL, and a value for every country of the group. */
  lemma {:induction false} GroupPopulationOverJoin(countries: seq<Country>, cities: seq<City>, col: CountryColumn, k: string)
    ensures var pops := GroupCountryPops(LeftJoin(countries, CityTotalsByCode(cities)), col, k);
      && NullAsZeroSum(pops) == CountryPopulationWhere(countries, col, k)
      && (forall i :: 0 <= i < |pops| ==> pops[i] != Null)
      && (k in CountryValues(countries, col) ==> pops != [])
  {
    if countries != [] {
      var c, rest := countries[0], countries[1..];
      var restJoined := LeftJoin(rest, CityTotalsByCode(cities));
      GroupPopulationOverJoin(rest, cities, col, k);
      LeftJoinCons(countries, cities);
      var head: seq<Nullable> := if CountryField(c, col) == k then [Value(c.population)] else [];
      assert GroupCountryPops(LeftJoin(countries, CityTotalsByCode(cities)), col, k) == head + GroupCountryPops(restJoined, col, k);
      NullAsZeroSumConcat(head, GroupCountryPops(restJoined, col, k));
      assert CountryValues(countries, col) == {CountryField(c, col)} + CountryValues(rest, col) by {
        assert countries == [c] + rest;
      }
    }
  }

  /** Over the join, the group's city column, NULL counting as 0, adds up to
      the group's urban population: a country without cities contributes 0. */
  lemma {:induction false} GroupCityOverJoin(countries: seq<Country>, cities: seq<City>, col: CountryColumn, k: string)
    ensures NullAsZeroSum(GroupCityPops(LeftJoin(countries, CityTotalsByCode(cities)), col, k))
         == GroupCityPopulation(countries, cities, col, k)
  {
    if countries != [] {
      var c, rest := countries[0], countries[1..];
      var restJoined := LeftJoin(rest, CityTotalsByCode(cities));
      GroupCityOverJoin(rest, cities, col, k);
      LeftJoinCons(countries, cities);
      var head: seq<Nullable> := if CountryField(c, col) == k then [JoinedFor(c, cities).totalCityPop] else [];
      assert GroupCityPops(LeftJoin(countries, CityTotalsByCode(cities)), col, k) == head + GroupCityPops(restJoined, col, k);
      NullAsZeroSumConcat(head, GroupCityPops(restJoined, col, k));
      if c.code !in CityCodes(cities) {
        CityCodesSpec(cities);
        NoCitiesMeansZero(cities, c.code);
      }
    }
  }

  // --- properties of the breakdowns --------------------------------------

  /** The join's group keys are the countries' own, in table order. */
  lemma JoinedKeysAreCountryKeys(countries: seq<Country>, cities: seq<City>, col: CountryColumn)
    ensures JoinedKeys(LeftJoin(countries, CityTotalsByCode(cities)), col)
         == seq(|countries|, i requires 0 <= i < |countries| => CountryField(countries[i], col))
  {
    LeftJoinOneRowPerCountry(countries, cities);
  }

  /** The grouped keys, ascending, are exactly the values the column takes. */
  lemma GroupKeysSpec(countries: seq<Country>, cities: seq<City>, col: CountryColumn, lt: (string, string) -> bool)
    requires StrictTotalOrder(lt)
    ensures var keys := SortedKeys(JoinedKeys(LeftJoin(countries, CityTotalsByCode(cities)), col), lt);
      StrictlySorted(keys, lt) && forall k :: k in keys <==> k in CountryValues(countries, col)
  {
    var ks := JoinedKeys(LeftJoin(countries, CityTotalsByCode(cities)), col);
    JoinedKeysAreCountryKeys(countries, cities, col);
    SortedKeysSpec(ks, lt);
    forall k ensures k in ks <==> k in CountryValues(countries, col) {
      if k in ks {
        var i :| 0 <= i < |ks| && ks[i] == k;
        assert countries[i] in countries;
      }
      if k in CountryValues(countries, col) {
        var c :| c in countries && CountryField(c, col) == k;
        var i :| 0 <= i < |countries| && countries[i] == c;
        assert ks[i] == k;
      }
    }
  }

  /** The continent (region) breakdown has one row per distinct continent
      (region) of the country table, in ascending order and without repeats;
      an empty country table gives no rows. */
  lemma GroupedBreakdownRows(db: Database, col: CountryColumn, lt: (string, string) -> bool)
    requires StrictTotalOrder(lt)
    ensures var rows := GroupedBreakdownQuery(db, col, lt);
      && (forall i, j :: 0 <= i < j < |rows| ==> lt(rows[i].name, rows[j].name))
      && (forall k :: (exists i :: 0 <= i < |rows| && rows[i].name == k) <==> k in CountryValues(db.countries, col))
      && (rows == [] <==> db.countries == [])
  {
    var rows := GroupedBreakdownQuery(db, col, lt);
    var keys := SortedKeys(JoinedKeys(LeftJoin(db.countries, CityTotalsByCode(db.cities)), col), lt);
    GroupKeysSpec(db.countries, db.cities, col, lt);
    assert forall i :: 0 <= i < |rows| ==> rows[i].name == keys[i];
    forall k ensures (exists i :: 0 <= i < |rows| && rows[i].name == k) <==> k in keys {
      if k in keys {
        var i :| 0 <= i < |keys| && keys[i] == k;
        assert rows[i].name == k;
      }
    }
    if db.countries != [] {
      assert CountryField(db.countries[0], col) in CountryValues(db.countries, col);
      assert CountryField(db.countries[0], col) in keys;
    }
  }

  /** Each row of the continent (region) breakdown holds the summed
      population of the group's countries, each counted once; the summed
      city population of those countries, 0 for a country without cities;
      and their difference as non-city population, however negative. */
  lemma GroupedBreakdownSums(db: Database, col: CountryColumn, lt: (string, string) -> bool)
    requires StrictTotalOrder(lt)
    ensures var rows := GroupedBreakdownQuery(db, col, lt);
      forall i :: 0 <= i < |rows| ==>
        var total := CountryPopulationWhere(db.countries, col, rows[i].name);
        var city := GroupCityPopulation(db.countries, db.cities, col, rows[i].name);
        && rows[i].totalPopulation == Value(total)
        && rows[i].cityPopulation == Value(city)
        && rows[i].nonCityPopulation == Value(total - city)
  {
    var joined := LeftJoin(db.countries, CityTotalsByCode(db.cities));
    var keys := SortedKeys(JoinedKeys(joined, col), lt);
    GroupKeysSpec(db.countries, db.cities, col, lt);
    forall k | k in keys
      ensures GroupRow(joined, col, k) == BreakdownRow(k,
        Value(CountryPopulationWhere(db.countries, col, k)),
        Value(GroupCityPopulation(db.countries, db.cities, col, k)),
        Value(CountryPopulationWhere(db.countries, col, k) - GroupCityPopulation(db.countries, db.cities, col, k)))
    {
      GroupPopulationOverJoin(db.countries, db.cities, col, k);
      GroupCityOverJoin(db.countries, db.cities, col, k);
      SqlSumOfValues(GroupCountryPops(joined, col, k));
      SqlSumSpec(GroupCityPops(joined, col, k));
    }
  }

  /** A city row whose code names no country leaves the continent (region)
      breakdown as it was. */
  lemma OrphanCityLeavesBreakdown(db: Database, orphan: City, col: CountryColumn, lt: (string, string) -> bool)
    requires StrictTotalOrder(lt)
    requires forall c :: c in db.countries ==> c.code != orphan.countryCode
    ensures GroupedBreakdownQuery(db.(cities := db.cities + [orphan]), col, lt) == GroupedBreakdownQuery(db, col, lt)
  {
    var db' := db.(cities := db.cities + [orphan]);
    var rows, rows' := GroupedBreakdownQuery(db, col, lt), GroupedBreakdownQuery(db', col, lt);
    JoinedKeysAreCountryKeys(db.countries, db.cities, col);
    JoinedKeysAreCountryKeys(db.countries, db'.cities, col);
    GroupedBreakdownSums(db, col, lt);
    GroupedBreakdownSums(db', col, lt);
    forall i | 0 <= i < |rows| ensures rows'[i] == rows[i] {
      OrphanCityIgnored(db.countries, db.cities, orphan, col, rows[i].name);
    }
  }

  /** The totals of a list of rows, read back as longs, added up. */
  function SumOfTotals(rows: seq<BreakdownRow>): int
  {
    if rows == [] then 0 else GetLong(rows[0].totalPopulation) + SumOfTotals(rows[1..])
  }

  lemma {:induction false} SumOfTotalsOverKeys(rows: seq<BreakdownRow>, countries: seq<Country>, col: CountryColumn, keys: seq<string>)
    requires |rows| == |keys|
    requires forall i :: 0 <= i < |rows| ==> rows[i].totalPopulation == Value(CountryPopulationWhere(countries, col, keys[i]))
    ensures SumOfTotals(rows) == SumOverKeys(countries, col, keys)
  {
    if rows != [] {
      SumOfTotalsOverKeys(rows[1..], countries, col, keys[1..]);
    }
  }

  /** No country is counted twice or left out: the continent (region) totals
      add up to the world population. */
  lemma GroupedTotalsAddUpToWorld(db: Database, col: CountryColumn, lt: (string, string) -> bool)
    requires StrictTotalOrder(lt)
    ensures SumOfTotals(GroupedBreakdownQuery(db, col, lt)) == WorldPopulation(db.countries)
  {
    var rows := GroupedBreakdownQuery(db, col, lt);
    var keys := SortedKeys(JoinedKeys(LeftJoin(db.countries, CityTotalsByCode(db.cities)), col), lt);
    GroupKeysSpec(db.countries, db.cities, col, lt);
    GroupedBreakdownSums(db, col, lt);
    StrictlySortedDistinct(keys, lt);
    SumOfTotalsOverKeys(rows, db.countries, col, keys);
    GroupsPartitionWorld(db.countries, col, keys);
  }

  /** A country's breakdown row: its own population, the summed population
      of its cities (0 when it has none), and their difference. */
  lemma CountryRowSpec(c: Country, cities: seq<City>)
    ensures var city := CityPopulationWhere(cities, CountryCode, c.code);
      && CountryRow(c, cities).name == c.name
      && CountryRow(c, cities).totalPopulation == Value(c.population)
      && CountryRow(c, cities).cityPopulation == Value(city)
      && CountryRow(c, cities).nonCityPopulation == Value(c.population - city)
  {
    var joined := CityPopulationColumn(cities, CountryCode, c.code);
    CityColumnSpec(cities, CountryCode, c.code);
    if joined == [] {
      NoCitiesMeansZero(cities, c.code);
      SqlSumSpec([Null]);
    } else {
      SqlSumSpec(joined);
    }
  }

  /** The country breakdown is ascending by name and holds one row per row
      of the country table. */
  lemma CountryBreakdownRows(db: Database, lt: (string, string) -> bool)
    requires StrictTotalOrder(lt)
    ensures var rows := CountryBreakdownQuery(db, lt);
      && (forall i, j :: 0 <= i < j < |rows| ==> !lt(rows[j].name, rows[i].name))
      && multiset(rows) == multiset(CountryRows(db.countries, db.cities))
      && |rows| == |db.countries|
  {
    SortBySpec(CountryRows(db.countries, db.cities), RowName, lt);
    var rows := CountryBreakdownQuery(db, lt);
    assert |rows| == |multiset(rows)|;
    assert |CountryRows(db.countries, db.cities)| == |multiset(CountryRows(db.countries, db.cities))|;
  }
}
