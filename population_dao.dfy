/** `PopulationDAO`: runs each query and turns every row of its result set
    into a new `Population` object, in result-set order. */
module PopulationDao {
  import opened Tables
  import opened KeyOrder
  import opened PopulationModel
  import opened PopulationQueries

  /** The object a breakdown row becomes: name and the three counts set from
      the row's columns, then the city and the non-city percentage. */
  function BreakdownRecord(row: BreakdownRow): PopulationRecord
  {
    var counts := Initial.(
      name := row.name,
      totalPopulation := GetLong(row.totalPopulation),
      cityPopulation := GetLong(row.cityPopulation),
      nonCityPopulation := GetLong(row.nonCityPopulation));
    WithNonCityPercentage(WithCityPercentage(counts))
  }

  /** The object a single-entity row becomes: only the name and the total are
      set; every other field keeps its initial 0. */
  function TotalRecord(name: string, total: Nullable): PopulationRecord
  {
    Initial.(name := name, totalPopulation := GetLong(total))
  }

  /** Every breakdown object keeps the residual exactly and carries the
      rounded shares of its counts: 0 for a total that is not positive, else
      two percentages that add up to 100 or 101, within [0, 100] when the
      city count does not exceed the total, and a non-city share of at most 0
      when it does. */
  lemma BreakdownRecordSpec(row: BreakdownRow)
    requires row.totalPopulation.Value? && row.cityPopulation.Value?
    requires row.nonCityPopulation == SqlMinus(row.totalPopulation, row.cityPopulation)
    ensures var r := BreakdownRecord(row);
      && r.cityPopulation + r.nonCityPopulation == r.totalPopulation
      && r.cityPercentage == RoundedPercent(r.cityPopulation, r.totalPopulation)
      && r.nonCityPercentage == RoundedPercent(r.nonCityPopulation, r.totalPopulation)
      && (r.totalPopulation <= 0 ==> r.cityPercentage == 0 && r.nonCityPercentage == 0)
      && (r.totalPopulation > 0 ==> 100 <= r.cityPercentage + r.nonCityPercentage <= 101)
      && (r.totalPopulation > 0 && 0 <= r.cityPopulation <= r.totalPopulation ==>
            0 <= r.cityPercentage <= 100 && 0 <= r.nonCityPercentage <= 100)
      && (r.totalPopulation > 0 && r.cityPopulation > r.totalPopulation ==> r.nonCityPercentage <= 0)
  {
    var r := BreakdownRecord(row);
    if r.totalPopulation > 0 {
      PercentagesOfSplit(r.cityPopulation, r.nonCityPopulation, r.totalPopulation);
      if 0 <= r.cityPopulation <= r.totalPopulation {
        PercentBounds(r.cityPopulation, r.totalPopulation);
        PercentBounds(r.nonCityPopulation, r.totalPopulation);
      }
      if r.cityPopulation > r.totalPopulation {
        NegativePartNonPositive(r.nonCityPopulation, r.totalPopulation);
      }
    }
  }

  /** The loop of the three breakdown methods. */
  method ReadBreakdownRows(rs: seq<BreakdownRow>) returns (populations: seq<Population>)
    ensures |populations| == |rs|
    ensures forall i :: 0 <= i < |rs| ==> fresh(populations[i]) && populations[i].Snapshot() == BreakdownRecord(rs[i])
    ensures forall i, j :: 0 <= i < j < |populations| ==> populations[i] != populations[j]
  {
    populations := [];
    var k := 0;
    while k < |rs|
      invariant 0 <= k <= |rs| && |populations| == k
      invariant forall i :: 0 <= i < k ==> fresh(populations[i]) && populations[i].Snapshot() == BreakdownRecord(rs[i])
      invariant forall i, j :: 0 <= i < j < k ==> populations[i] != populations[j]
    {
      var population := new Population();
      population.SetName(rs[k].name);
      population.SetTotalPopulation(GetLong(rs[k].totalPopulation));
      population.SetCityPopulation(GetLong(rs[k].cityPopulation));
      population.SetNonCityPopulation(GetLong(rs[k].nonCityPopulation));
      population.SetCityPercentage();
      population.SetNonCityPercentage();
      populations := populations + [population];
      k := k + 1;
    }
  }

  /** The loop of the six single-entity methods. */
  method ReadTotalRows(name: string, rs: seq<Nullable>) returns (populations: seq<Population>)
    ensures |populations| == |rs|
    ensures forall i :: 0 <= i < |rs| ==> fresh(populations[i]) && populations[i].Snapshot() == TotalRecord(name, rs[i])
    ensures forall i, j :: 0 <= i < j < |populations| ==> populations[i] != populations[j]
  {
    populations := [];
    var k := 0;
    while k < |rs|
      invariant 0 <= k <= |rs| && |populations| == k
      invariant forall i :: 0 <= i < k ==> fresh(populations[i]) && populations[i].Snapshot() == TotalRecord(name, rs[i])
      invariant forall i, j :: 0 <= i < j < k ==> populations[i] != populations[j]
    {
      var population := new Population();
      population.SetName(name);
      population.SetTotalPopulation(GetLong(rs[k]));
      populations := populations + [population];
      k := k + 1;
    }
  }

  class PopulationDao {
    /** The store the queries run against. */
    const db: Database
    /** The order `ORDER BY co.Continent` sorts in: the store's declaration
        order of the continent ENUM. */
    const continentOrder: (string, string) -> bool
    /** The order `ORDER BY co.Region` sorts in: the column's collation. */
    const regionOrder: (string, string) -> bool
    /** The order `ORDER BY co.Name` sorts in: the column's collation. */
    const nameOrder: (string, string) -> bool

    ghost predicate Valid()
    {
      StrictTotalOrder(continentOrder) && StrictTotalOrder(regionOrder) && StrictTotalOrder(nameOrder)
    }

    constructor (db: Database, continentOrder: (string, string) -> bool,
                 regionOrder: (string, string) -> bool, nameOrder: (string, string) -> bool)
      requires StrictTotalOrder(continentOrder) && StrictTotalOrder(regionOrder) && StrictTotalOrder(nameOrder)
      ensures Valid() && this.db == db
      ensures this.continentOrder == continentOrder && this.regionOrder == regionOrder && this.nameOrder == nameOrder
    {
      this.db := db;
      this.continentOrder := continentOrder;
      this.regionOrder := regionOrder;
      this.nameOrder := nameOrder;
    }

    /** One object per continent, ascending by continent: the continent's
        population, its urban population and the residual. */
    method GetEachContinentPopulationWithUrbanAndNonUrban() returns (populations: seq<Population>)
      requires Valid()
      ensures var rows := GroupedBreakdownQuery(db, Continent, continentOrder);
        && |populations| == |rows|
        && forall i :: 0 <= i < |rows| ==> fresh(populations[i]) && populations[i].Snapshot() == BreakdownRecord(rows[i])
      ensures forall i, j :: 0 <= i < j < |populations| ==> continentOrder(populations[i].name, populations[j].name)
      ensures forall k :: (exists i :: 0 <= i < |populations| && populations[i].name == k) <==> k in CountryValues(db.countries, Continent)
      ensures forall i :: 0 <= i < |populations| ==>
        && populations[i].totalPopulation == CountryPopulationWhere(db.countries, Continent, populations[i].name)
        && populations[i].cityPopulation == GroupCityPopulation(db.countries, db.cities, Continent, populations[i].name)
        && populations[i].cityPopulation + populations[i].nonCityPopulation == populations[i].totalPopulation
    {
      var rows := GroupedBreakdownQuery(db, Continent, continentOrder);
      GroupedBreakdownRows(db, Continent, continentOrder);
      GroupedBreakdownSums(db, Continent, continentOrder);
      populations := ReadBreakdownRows(rows);
      assert forall i :: 0 <= i < |rows| ==> populations[i].name == rows[i].name;
    }

    /** One object per region, ascending by region: the region's population,
        its urban population and the residual. */
    method GetEachRegionPopulationWithUrbanAndNonUrban() returns (populations: seq<Population>)
      requires Valid()
      ensures var rows := GroupedBreakdownQuery(db, Region, regionOrder);
        && |populations| == |rows|
        && forall i :: 0 <= i < |rows| ==> fresh(populations[i]) && populations[i].Snapshot() == BreakdownRecord(rows[i])
      ensures forall i, j :: 0 <= i < j < |populations| ==> regionOrder(populations[i].name, populations[j].name)
      ensures forall k :: (exists i :: 0 <= i < |populations| && populations[i].name == k) <==> k in CountryValues(db.countries, Region)
      ensures forall i :: 0 <= i < |populations| ==>
        && populations[i].totalPopulation == CountryPopulationWhere(db.countries, Region, populations[i].name)
        && populations[i].cityPopulation == GroupCityPopulation(db.countries, db.cities, Region, populations[i].name)
        && populations[i].cityPopulation + populations[i].nonCityPopulation == populations[i].totalPopulation
    {
      var rows := GroupedBreakdownQuery(db, Region, regionOrder);
      GroupedBreakdownRows(db, Region, regionOrder);
      GroupedBreakdownSums(db, Region, regionOrder);
      populations := ReadBreakdownRows(rows);
      assert forall i :: 0 <= i < |rows| ==> populations[i].name == rows[i].name;
    }

    /** One object per country, ascending by name: the country's own
        population, the summed population of its cities and the residual. */
    method GetEachCountryPopulationWithUrbanAndNonUrban() returns (populations: seq<Population>)
      requires Valid()
      ensures var rows := CountryBreakdownQuery(db, nameOrder);
        && |populations| == |rows| == |db.countries|
        && forall i :: 0 <= i < |rows| ==> fresh(populations[i]) && populations[i].Snapshot() == BreakdownRecord(rows[i])
      ensures forall i, j :: 0 <= i < j < |populations| ==> !nameOrder(populations[j].name, populations[i].name)
      ensures forall i :: 0 <= i < |populations| ==>
        populations[i].cityPopulation + populations[i].nonCityPopulation == populations[i].totalPopulation
    {
      var rows := CountryBreakdownQuery(db, nameOrder);
      CountryBreakdownRows(db, nameOrder);
      forall r: BreakdownRow | r in multiset(rows)
        ensures r.cityPopulation.Value? && r.totalPopulation.Value?
        ensures r.nonCityPopulation == SqlMinus(r.totalPopulation, r.cityPopulation)
      {
        assert r in multiset(CountryRows(db.countries, db.cities));
        var i :| 0 <= i < |db.countries| && CountryRows(db.countries, db.cities)[i] == r;
        CountryRowSpec(db.countries[i], db.cities);
      }
      populations := ReadBreakdownRows(rows);
      forall i | 0 <= i < |rows|
        ensures populations[i].cityPopulation + populations[i].nonCityPopulation == populations[i].totalPopulation
      {
        assert rows[i] in multiset(rows);
      }
      assert forall i :: 0 <= i < |rows| ==> populations[i].name == rows[i].name;
    }

    /** Exactly one object, named "World", holding the world population. */
    method GetWorldPopulation() returns (populations: seq<Population>)
      ensures |populations| == 1 && fresh(populations[0])
      ensures populations[0].Snapshot() == Initial.(name := "World", totalPopulation := WorldPopulation(db.countries))
    {
      WorldPopulationQuerySpec(db);
      populations := ReadTotalRows("World", WorldPopulationQuery(db));
    }

    /** Exactly one object, whatever the name: the continent's population,
        0 when no country lies on it. */
    method GetContinentPopulation(continentName: string) returns (populations: seq<Population>)
      ensures |populations| == 1 && fresh(populations[0])
      ensures populations[0].Snapshot()
           == Initial.(name := continentName, totalPopulation := CountryPopulationWhere(db.countries, Continent, continentName))
    {
      CountrySumQuerySpec(db, Continent, continentName);
      populations := ReadTotalRows(continentName, CountrySumQuery(db, Continent, continentName));
    }

    /** Exactly one object, whatever the name: the region's population, 0
        when no country lies in it. */
    method GetRegionPopulation(regionName: string) returns (populations: seq<Population>)
      ensures |populations| == 1 && fresh(populations[0])
      ensures populations[0].Snapshot()
           == Initial.(name := regionName, totalPopulation := CountryPopulationWhere(db.countries, Region, regionName))
    {
      CountrySumQuerySpec(db, Region, regionName);
      populations := ReadTotalRows(regionName, CountrySumQuery(db, Region, regionName));
    }

    /** One object per country of that name (none for an unknown name),
        each holding only that country's population. */
    method GetCountryPopulation(countryName: string) returns (populations: seq<Population>)
      ensures |populations| == |CountryPopulationQuery(db, countryName)| == CountCountries(db.countries, Name, countryName)
      ensures populations == [] <==> forall c :: c in db.countries ==> c.name != countryName
      ensures forall i :: 0 <= i < |populations| ==>
        fresh(populations[i]) && populations[i].Snapshot() == TotalRecord(countryName, CountryPopulationQuery(db, countryName)[i])
    {
      CountryPopulationQuerySpec(db, countryName);
      populations := ReadTotalRows(countryName, CountryPopulationQuery(db, countryName));
    }

    /** Exactly one object, whatever the name: the district's population, 0
        when no city lies in it. */
    method GetDistrictPopulation(districtName: string) returns (populations: seq<Population>)
      ensures |populations| == 1 && fresh(populations[0])
      ensures populations[0].Snapshot()
           == Initial.(name := districtName, totalPopulation := CityPopulationWhere(db.cities, District, districtName))
    {
      DistrictPopulationQuerySpec(db, districtName);
      populations := ReadTotalRows(districtName, DistrictPopulationQuery(db, districtName));
    }

    /** One object per city of that name (none for an unknown name), each
        holding only that city's population. */
    method GetCityPopulation(cityName: string) returns (populations: seq<Population>)
      ensures |populations| == |CityPopulationQuery(db, cityName)| == CountCities(db.cities, CityName, cityName)
      ensures populations == [] <==> forall c :: c in db.cities ==> c.name != cityName
      ensures forall i :: 0 <= i < |populations| ==>
        fresh(populations[i]) && populations[i].Snapshot() == TotalRecord(cityName, CityPopulationQuery(db, cityName)[i])
    {
      CityPopulationQuerySpec(db, cityName);
      populations := ReadTotalRows(cityName, CityPopulationQuery(db, cityName));
    }
  }
}
