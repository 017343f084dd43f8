/** The two tables of the world database that the population reports read,
    and reference definitions of the sums the reports are meant to compute. */
module Tables {

  /** A row of the `country` table. `code` is the table's primary key. */
  datatype Country = Country(code: string, name: string, continent: string, region: string, population: int)

  /** A row of the `city` table; `countryCode` refers to `Country.code`. */
  datatype City = City(name: string, countryCode: string, district: string, population: int)

  /** A snapshot of the store: both tables, in their storage order. */
  datatype Database = Database(countries: seq<Country>, cities: seq<City>)

  /** The string columns of `country` that the queries compare or group on. */
  datatype CountryColumn = Continent | Region | Name

  /** The string columns of `city` that the queries compare or group on. */
  datatype CityColumn = CityName | CountryCode | District

  function CountryField(c: Country, col: CountryColumn): string
  {
    match col
    case Continent => c.continent
    case Region => c.region
    case Name => c.name
  }

  function CityField(c: City, col: CityColumn): string
  {
    match col
    case CityName => c.name
    case CountryCode => c.countryCode
    case District => c.district
  }

  /** The set of values a country column takes over the table. */
  function CountryValues(countries: seq<Country>, col: CountryColumn): set<string>
  {
    set c | c in countries :: CountryField(c, col)
  }

  /** Reference: the summed population of the countries whose `col` is `v`. */
  function CountryPopulationWhere(countries: seq<Country>, col: CountryColumn, v: string): int
  {
    if countries == [] then 0
    else (if CountryField(countries[0], col) == v then countries[0].population else 0)
         + CountryPopulationWhere(countries[1..], col, v)
  }

  /** Reference: the summed population of every country. */
  function WorldPopulation(countries: seq<Country>): int
  {
    if countries == [] then 0 else countries[0].population + WorldPopulation(countries[1..])
  }

  /** Reference: the summed population of the cities whose `col` is `v`. */
  function CityPopulationWhere(cities: seq<City>, col: CityColumn, v: string): int
  {
    if cities == [] then 0
    else (if CityField(cities[0], col) == v then cities[0].population else 0)
         + CityPopulationWhere(cities[1..], col, v)
  }

  /** Reference: the urban population of the countries whose `col` is `v`: for
      each such country, counted once, the summed population of the cities
      that carry its code (0 when it has none). */
  function GroupCityPopulation(countries: seq<Country>, cities: seq<City>, col: CountryColumn, v: string): int
  {
    if countries == [] then 0
    else (if CountryField(countries[0], col) == v
          then CityPopulationWhere(cities, CountryCode, countries[0].code) else 0)
         + GroupCityPopulation(countries[1..], cities, col, v)
  }

  /** A country none of whose cities is in the table has urban population 0. */
  lemma {:induction false} NoCitiesMeansZero(cities: seq<City>, code: string)
    requires forall c :: c in cities ==> c.countryCode != code
    ensures CityPopulationWhere(cities, CountryCode, code) == 0
  {
    if cities != [] {
      NoCitiesMeansZero(cities[1..], code);
    }
  }

  /** A city row whose code names no country changes no group's urban population. */
  lemma {:induction false} OrphanCityIgnored(countries: seq<Country>, cities: seq<City>, orphan: City, col: CountryColumn, v: string)
    requires forall c :: c in countries ==> c.code != orphan.countryCode
    ensures GroupCityPopulation(countries, cities + [orphan], col, v) == GroupCityPopulation(countries, cities, col, v)
  {
    if countries != [] {
      CityAppended(cities, orphan, countries[0].code);
      OrphanCityIgnored(countries[1..], cities, orphan, col, v);
    }
  }

  /** Appending a city adds its population to its own country's sum only. */
  lemma {:induction false} CityAppended(cities: seq<City>, city: City, code: string)
    ensures CityPopulationWhere(cities + [city], CountryCode, code)
         == CityPopulationWhere(cities, CountryCode, code) + (if city.countryCode == code then city.population else 0)
  {
    if cities == [] {
      assert cities + [city] == [city];
    } else {
      assert (cities + [city])[1..] == cities[1..] + [city];
      CityAppended(cities[1..], city, code);
    }
  }

  /** Summing the group totals over a list of distinct keys that covers every
      country's key counts every country exactly once: the group totals add
      up to the world population. */
  lemma {:induction false} GroupsPartitionWorld(countries: seq<Country>, col: CountryColumn, keys: seq<string>)
    requires forall i, j :: 0 <= i < j < |keys| ==> keys[i] != keys[j]
    requires CountryValues(countries, col) <= set k | k in keys
    ensures SumOverKeys(countries, col, keys) == WorldPopulation(countries)
  {
    if countries != [] {
      var rest := countries[1..];
      assert CountryValues(rest, col) <= CountryValues(countries, col) by {
        forall v | v in CountryValues(rest, col) ensures v in CountryValues(countries, col) {
          var c :| c in rest && CountryField(c, col) == v;
          assert c in countries;
        }
      }
      GroupsPartitionWorld(rest, col, keys);
      assert CountryField(countries[0], col) in CountryValues(countries, col);
      assert CountryField(countries[0], col) in keys;
      SumOverKeysSplit(countries, col, keys);
    } else {
      NoCountriesNoPopulation(col, keys);
    }
  }

  lemma {:induction false} NoCountriesNoPopulation(col: CountryColumn, keys: seq<string>)
    ensures SumOverKeys([], col, keys) == 0
  {
    if keys != [] {
      NoCountriesNoPopulation(col, keys[1..]);
    }
  }

  /** The group totals of `keys`, added up. */
  function SumOverKeys(countries: seq<Country>, col: CountryColumn, keys: seq<string>): int
  {
    if keys == [] then 0
    else CountryPopulationWhere(countries, col, keys[0]) + SumOverKeys(countries, col, keys[1..])
  }

  /** Over distinct keys, the first country falls in at most one group. */
  lemma {:induction false} SumOverKeysSplit(countries: seq<Country>, col: CountryColumn, keys: seq<string>)
    requires countries != []
    requires forall i, j :: 0 <= i < j < |keys| ==> keys[i] != keys[j]
    ensures SumOverKeys(countries, col, keys)
         == SumOverKeys(countries[1..], col, keys)
            + (if CountryField(countries[0], col) in keys then countries[0].population else 0)
  {
    if keys != [] {
      SumOverKeysSplit(countries, col, keys[1..]);
    }
  }
}
