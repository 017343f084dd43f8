/** Small worked tables and what the reports make of them. */
module Scenarios {
  import opened Tables
  import opened KeyOrder
  import opened PopulationModel
  import opened PopulationQueries
  import opened PopulationDao

  const Afghanistan := Country("AFG", "Afghanistan", "Asia", "Southern and Central Asia", 22720000)

  /** Sorting one row leaves it as it is. */
  lemma SortOne(r: BreakdownRow, lt: (string, string) -> bool)
    ensures SortBy([r], RowName, lt) == [r]
  {
    assert [r][1..] == [];
  }

  /** The country breakdown of a one-country table is that country's row. */
  lemma OneCountryBreakdown(c: Country, cities: seq<City>, lt: (string, string) -> bool)
    ensures var city := CityPopulationWhere(cities, CountryCode, c.code);
      CountryBreakdownQuery(Database([c], cities), lt)
      == [BreakdownRow(c.name, Value(c.population), Value(city), Value(c.population - city))]
  {
    assert CountryRows([c], cities) == [CountryRow(c, cities)];
    CountryRowSpec(c, cities);
    SortOne(CountryRow(c, cities), lt);
  }

  /** A country without cities: all of its population is non-city. */
  lemma CountryWithoutCities(db: Database, lt: (string, string) -> bool)
    requires db == Database([Afghanistan], [])
    ensures var rows := CountryBreakdownQuery(db, lt);
      && rows == [BreakdownRow("Afghanistan", Value(22720000), Value(0), Value(22720000))]
      && BreakdownRecord(rows[0]).cityPercentage == 0
      && BreakdownRecord(rows[0]).nonCityPercentage == 100
  {
    OneCountryBreakdown(db.countries[0], db.cities, lt);
    var rows := CountryBreakdownQuery(db, lt);
    assert rows == [BreakdownRow("Afghanistan", Value(22720000), Value(0), Value(22720000))];
    assert RoundedPercent(22720000, 22720000) == 100;
    assert RoundedPercent(0, 22720000) == 0;
  }

  /** 600000 of 1000000 in cities: 60 and 40 percent. */
  lemma CountryWithCities(db: Database, lt: (string, string) -> bool)
    requires db == Database([Country("X", "X", "Asia", "R", 1000000)], [City("C1", "X", "D", 600000)])
    ensures var rows := CountryBreakdownQuery(db, lt);
      && rows == [BreakdownRow("X", Value(1000000), Value(600000), Value(400000))]
      && BreakdownRecord(rows[0]).cityPercentage == 60
      && BreakdownRecord(rows[0]).nonCityPercentage == 40
  {
    OneCountryBreakdown(db.countries[0], db.cities, lt);
    assert CityPopulationWhere(db.cities, CountryCode, "X") == 600000 by {
      assert db.cities[1..] == [];
    }
  }

  /** The cities of a country outnumbering its own population: a negative
      non-city population and percentage, left unclamped. */
  lemma CitiesExceedCountry(db: Database, lt: (string, string) -> bool)
    requires db == Database([Country("Y", "Y", "Europe", "R", 500000)], [City("C2", "Y", "D", 700000)])
    ensures var rows := CountryBreakdownQuery(db, lt);
      && rows == [BreakdownRow("Y", Value(500000), Value(700000), Value(-200000))]
      && BreakdownRecord(rows[0]).cityPercentage == 140
      && BreakdownRecord(rows[0]).nonCityPercentage == -40
  {
    OneCountryBreakdown(db.countries[0], db.cities, lt);
    assert CityPopulationWhere(db.cities, CountryCode, "Y") == 700000 by {
      assert db.cities[1..] == [];
    }
  }

  /** Looking up a country that does not exist yields no row at all, while
      the continent total of an unknown continent yields one row, read as 0. */
  lemma UnknownNames()
    ensures CountryPopulationQuery(Database([Afghanistan], []), "Unknownland") == []
    ensures |CountrySumQuery(Database([Afghanistan], []), Continent, "Atlantis")| == 1
    ensures GetLong(CountrySumQuery(Database([Afghanistan], []), Continent, "Atlantis")[0]) == 0
  {
    var db := Database([Afghanistan], []);
    assert "Afghanistan"[0] != "Unknownland"[0];
    assert "Asia"[1] != "Atlantis"[1];
    CountryPopulationQuerySpec(db, "Unknownland");
    CountrySumQuerySpec(db, Continent, "Atlantis");
    assert CountryPopulationWhere(db.countries, Continent, "Atlantis") == 0 by {
      assert db.countries[1..] == [];
    }
  }
}
