# Urban and non-urban population roll-up

This project models the population reports of a world-database application.
`PopulationDAO` runs SQL against two tables, `country` and `city`. It turns
every result row into a `Population` bean, which holds:
- a name;
- a total, a city (urban) and a non-city population;
- the two percentages that the bean's setters derive from those counts.

The model has five modules:
- `Tables` holds the two tables as sequences of rows. It also gives reference
  definitions of the sums the reports should produce: a group's population,
  and a group's urban population counted through the country codes of its
  countries.
- `KeyOrder` abstracts `GROUP BY … ORDER BY`. A sort order is a parameter, a
  strict total order on strings. Grouping yields the distinct keys in ascending
  order. The country breakdown is a stable sort by name.
- `PopulationModel` models the `Population` bean as a class. Each setter states
  the whole new state of the object. The percentage setters are specified by
  `RoundedPercent`, which is Java's `Math.round(100.0 * part / total)` in exact
  arithmetic, or 0 when the total is not positive.
- `PopulationQueries` evaluates each SQL statement over the tables, with SQL
  NULL made explicit:
  - `SUM` of no values is NULL;
  - `COALESCE` turns that NULL into 0;
  - `LEFT JOIN` onto the per-code city sums gives one joined row per country;
  - `rs.getLong` reads NULL as 0.

  Its lemmas tie each query result to the reference sums of `Tables`.
- `PopulationDao` models the DAO as a class over a store snapshot `db` and the
  store's three sort orders. Each column the reports sort by has its own
  order:
  - continents sort by the declaration order of the continent ENUM;
  - regions sort by the region column's collation;
  - country names sort by the name column's collation.

  The two orders may disagree on the same strings. For example, "North
  America" comes before "Antarctica" as a continent but after it as a region.
  Each method runs its query and builds the list of new `Population` objects
  in a `while` loop, one object per result row, calling the setters in the
  source's order.

`Scenarios` works through small tables: a country without cities, a country
whose cities hold 60 % of it, a country whose cities outnumber it, and lookups
of unknown names.

Where the documentation and the code differ, the model follows the code:
- The continent, region and district totals and the world total are `SUM`
  queries with no `GROUP BY`. They always produce exactly one object, with
  total 0 when nothing matches, never an empty list.
- The country lookup returns one object per country of that name, not the
  first one found.
- Breakdowns are ordered by the store's own orders, not by code-point order of
  the strings. The integration test expects "Asia" first among the continents
  (ENUM order) and "Antarctica" first among the regions (collation).

## Model

| member | source | states |
|---|---|---|
| PopulationModel.RoundedPercent | src/main/java/com/napier/proj/model/Population.java:106-111 | 0 when the total is not positive; otherwise the unique whole number within half of 100·part/total, halves rounded up |
| PopulationModel.PercentBounds | src/main/java/com/napier/proj/model/Population.java:106-109 | a part between 0 and a positive total gives a percentage between 0 and 100 |
| PopulationModel.NegativePartNonPositive | src/main/java/com/napier/proj/model/Population.java:129-131 | nothing is clamped: a negative part over a positive total gives a percentage of at most 0 |
| PopulationModel.PercentagesOfSplit | src/main/java/com/napier/proj/model/Population.java:105-136 | the two independently rounded shares of a split of a positive total add up to 100 or 101 |
| PopulationModel.PercentageSettersIdempotent | src/main/java/com/napier/proj/model/Population.java:105-136 | a percentage is a snapshot: recomputing it with no count changed changes nothing, and the two percentage setters commute |
| PopulationModel.Population.constructor | src/main/java/com/napier/proj/model/Population.java:12-18 | a new object has every count and percentage 0 |
| PopulationModel.Population.SetName | src/main/java/com/napier/proj/model/Population.java:25-36 | the getter returns the new name; no other field changes |
| PopulationModel.Population.SetTotalPopulation | src/main/java/com/napier/proj/model/Population.java:43-54 | the getter returns the new total; no other field changes, and no percentage is recomputed |
| PopulationModel.Population.SetCityPopulation | src/main/java/com/napier/proj/model/Population.java:61-72 | the getter returns the new city count; no other field changes, and no percentage is recomputed |
| PopulationModel.Population.SetNonCityPopulation | src/main/java/com/napier/proj/model/Population.java:79-90 | the getter returns the new non-city count; no other field changes, and no percentage is recomputed |
| PopulationModel.Population.SetCityPercentage | src/main/java/com/napier/proj/model/Population.java:97-113 | 0 when the total is not positive; otherwise the rounded share of the city count; only `cityPercentage` changes |
| PopulationModel.Population.SetNonCityPercentage | src/main/java/com/napier/proj/model/Population.java:120-136 | the same rule for the non-city count; only `nonCityPercentage` changes |
| Tables.NoCitiesMeansZero | src/main/java/com/napier/proj/dao/PopulationDAO.java:46 | a country with no city rows has urban population 0 |
| Tables.OrphanCityIgnored | src/main/java/com/napier/proj/dao/PopulationDAO.java:49-53 | a city whose code names no country changes no group's urban population |
| Tables.CityAppended | src/main/java/com/napier/proj/dao/PopulationDAO.java:50-52 | adding a city adds its population to its own country's city sum and to no other |
| Tables.GroupsPartitionWorld | src/main/java/com/napier/proj/dao/PopulationDAO.java:54 | the group totals over distinct keys that cover every value of the column add up to the world population |
| Tables.SumOverKeysSplit | src/main/java/com/napier/proj/dao/PopulationDAO.java:54 | over distinct keys, a country's population falls in at most one group |
| Tables.NoCountriesNoPopulation | src/main/java/com/napier/proj/dao/PopulationDAO.java:54 | with no countries every group total is 0 |
| KeyOrder.InsertKeySorted | src/main/java/com/napier/proj/dao/PopulationDAO.java:54-55 | adding a key to an ascending key list keeps it strictly ascending and adds exactly that key |
| KeyOrder.SortedKeysSpec | src/main/java/com/napier/proj/dao/PopulationDAO.java:54-55 | grouping yields each key that occurs exactly once, strictly ascending in the store's order |
| KeyOrder.StrictlySortedDistinct | src/main/java/com/napier/proj/dao/PopulationDAO.java:54-55 | a strictly ascending key list repeats no key |
| KeyOrder.InsertBySorted | src/main/java/com/napier/proj/dao/PopulationDAO.java:143 | inserting a row into a list sorted by key keeps it sorted and adds exactly that row |
| KeyOrder.SortBySpec | src/main/java/com/napier/proj/dao/PopulationDAO.java:143 | sorting by name yields an ascending permutation of the rows |
| PopulationQueries.SqlSumSpec | src/main/java/com/napier/proj/dao/PopulationDAO.java:45-47 | `SUM` is NULL exactly when every value is NULL, and otherwise the sum of the non-NULL values; `COALESCE(SUM, 0)` is that sum with NULL as 0 |
| PopulationQueries.NullAsZeroSumConcat | src/main/java/com/napier/proj/dao/PopulationDAO.java:45-47 | the NULL-skipping sum of a concatenation is the sum of the two parts |
| PopulationQueries.SqlSumOfValues | src/main/java/com/napier/proj/dao/PopulationDAO.java:198 | a `SUM` over non-NULL values is NULL only when nothing matched |
| PopulationQueries.CountryColumnSpec | src/main/java/com/napier/proj/dao/PopulationDAO.java:198 | a `WHERE` on the country table selects one non-NULL population per matching row, none iff no row matches, summing to the reference total |
| PopulationQueries.CityColumnSpec | src/main/java/com/napier/proj/dao/PopulationDAO.java:276 | the same for a `WHERE` on the city table |
| PopulationQueries.WorldPopulationQuerySpec | src/main/java/com/napier/proj/dao/PopulationDAO.java:173 | the world query returns exactly one row, which reads as the sum of every country's population |
| PopulationQueries.WorldColumnSum | src/main/java/com/napier/proj/dao/PopulationDAO.java:173 | the country population column adds up to the world population |
| PopulationQueries.CountrySumQuerySpec | src/main/java/com/napier/proj/dao/PopulationDAO.java:198-208 | a continent or region total is one row for any argument; it reads as the group's population and is NULL (read as 0) for an unknown name |
| PopulationQueries.DistrictPopulationQuerySpec | src/main/java/com/napier/proj/dao/PopulationDAO.java:276-286 | a district total is one row for any argument; it reads as the summed population of the district's cities and is NULL for an unknown district |
| PopulationQueries.CountryPopulationQuerySpec | src/main/java/com/napier/proj/dao/PopulationDAO.java:250-261 | the country lookup returns one non-NULL row per country of that name, and none iff there is none |
| PopulationQueries.CityPopulationQuerySpec | src/main/java/com/napier/proj/dao/PopulationDAO.java:302-313 | the city lookup returns one non-NULL row per city of that name, and none iff there is none |
| PopulationQueries.CityCodesSpec | src/main/java/com/napier/proj/dao/PopulationDAO.java:50-52 | the pre-summed city table lists each code that has cities exactly once |
| PopulationQueries.MatchesOfDistinct | src/main/java/com/napier/proj/dao/PopulationDAO.java:53 | against per-code sums a country matches at most one row: its own code's |
| PopulationQueries.JoinOneCountry | src/main/java/com/napier/proj/dao/PopulationDAO.java:49-53 | the LEFT JOIN gives each country exactly one row: its code's city sum, or NULL when it has no cities |
| PopulationQueries.LeftJoinOneRowPerCountry | src/main/java/com/napier/proj/dao/PopulationDAO.java:49-53 | the join keeps every country exactly once, in table order, so no country is counted twice |
| PopulationQueries.LeftJoinCons | src/main/java/com/napier/proj/dao/PopulationDAO.java:49-53 | the join of a non-empty country table starts with its first country's row |
| PopulationQueries.GroupPopulationOverJoin | src/main/java/com/napier/proj/dao/PopulationDAO.java:45 | over the join, a group's `SUM(co.Population)` is the group's population, NULL only for an empty group |
| PopulationQueries.GroupCityOverJoin | src/main/java/com/napier/proj/dao/PopulationDAO.java:46 | over the join, a group's city sum with NULL as 0 is the summed population of the cities of its countries |
| PopulationQueries.JoinedKeysAreCountryKeys | src/main/java/com/napier/proj/dao/PopulationDAO.java:54 | the group keys of the joined rows are the countries' own keys |
| PopulationQueries.GroupKeysSpec | src/main/java/com/napier/proj/dao/PopulationDAO.java:54-55 | the grouped keys are strictly ascending and are exactly the values the column takes |
| PopulationQueries.GroupedBreakdownRows | src/main/java/com/napier/proj/dao/PopulationDAO.java:43-55 | one row per distinct continent (region), strictly ascending; an empty country table gives no rows |
| PopulationQueries.GroupedBreakdownSums | src/main/java/com/napier/proj/dao/PopulationDAO.java:44-53 | each row holds its group's population, its urban population and the exact residual `total - city` |
| PopulationQueries.OrphanCityLeavesBreakdown | src/main/java/com/napier/proj/dao/PopulationDAO.java:49-53 | a city whose code names no country does not change the continent (region) breakdown |
| PopulationQueries.SumOfTotalsOverKeys | src/main/java/com/napier/proj/dao/PopulationDAO.java:45 | rows holding the group totals of a key list add up to the sum over those keys |
| PopulationQueries.GroupedTotalsAddUpToWorld | src/main/java/com/napier/proj/dao/PopulationDAO.java:43-55 | the continent (region) totals add up to the world population |
| PopulationQueries.CountryRowSpec | src/main/java/com/napier/proj/dao/PopulationDAO.java:135-142 | a country's row holds its own population, the sum of its cities (0 when none) and the exact residual |
| PopulationQueries.CountryBreakdownRows | src/main/java/com/napier/proj/dao/PopulationDAO.java:135-143 | the country breakdown is ascending by name and holds exactly one row per country |
| PopulationDao.BreakdownRecordSpec | src/main/java/com/napier/proj/dao/PopulationDAO.java:62-71 | every breakdown object keeps `city + nonCity == total`, carries both rounded shares (0 for a non-positive total), shares that add up to 100 or 101, lie in [0, 100] when the city count is at most the total, and a non-city share of at most 0 when it exceeds it |
| PopulationDao.ReadBreakdownRows | src/main/java/com/napier/proj/dao/PopulationDAO.java:62-71 | one new, distinct object per result row, in row order, holding the row's name and counts and the percentages derived from them |
| PopulationDao.ReadTotalRows | src/main/java/com/napier/proj/dao/PopulationDAO.java:204-209 | one new, distinct object per result row, in row order, holding the name and the row's total; all other fields stay 0 |
| PopulationDao.PopulationDao.constructor | src/main/java/com/napier/proj/dao/PopulationDAO.java:31-33 | the DAO reads the given store, sorting continents, regions and names each by its own order |
| PopulationDao.PopulationDao.GetEachContinentPopulationWithUrbanAndNonUrban | src/main/java/com/napier/proj/dao/PopulationDAO.java:40-79 | one object per continent, strictly ascending in the continent order, exactly the continents present, each with its population, its urban population and the residual |
| PopulationDao.PopulationDao.GetEachRegionPopulationWithUrbanAndNonUrban | src/main/java/com/napier/proj/dao/PopulationDAO.java:86-125 | the same per region, ascending in the region order |
| PopulationDao.PopulationDao.GetEachCountryPopulationWithUrbanAndNonUrban | src/main/java/com/napier/proj/dao/PopulationDAO.java:132-166 | one object per country, ascending by name, each keeping `city + nonCity == total` |
| PopulationDao.PopulationDao.GetWorldPopulation | src/main/java/com/napier/proj/dao/PopulationDAO.java:171-190 | exactly one object, named "World", holding the sum of every country's population |
| PopulationDao.PopulationDao.GetContinentPopulation | src/main/java/com/napier/proj/dao/PopulationDAO.java:196-216 | exactly one object for any name, holding the continent's population (0 when unknown) |
| PopulationDao.PopulationDao.GetRegionPopulation | src/main/java/com/napier/proj/dao/PopulationDAO.java:222-242 | exactly one object for any name, holding the region's population (0 when unknown) |
| PopulationDao.PopulationDao.GetCountryPopulation | src/main/java/com/napier/proj/dao/PopulationDAO.java:248-268 | one object per country of that name, empty iff there is none, each holding only that country's population |
| PopulationDao.PopulationDao.GetDistrictPopulation | src/main/java/com/napier/proj/dao/PopulationDAO.java:274-294 | exactly one object for any name, holding the summed population of the district's cities (0 when unknown) |
| PopulationDao.PopulationDao.GetCityPopulation | src/main/java/com/napier/proj/dao/PopulationDAO.java:300-320 | one object per city of that name, empty iff there is none, each holding only that city's population |
| Scenarios.OneCountryBreakdown | src/main/java/com/napier/proj/dao/PopulationDAO.java:135-143 | the breakdown of a one-country store is that country's row |
| Scenarios.CountryWithoutCities | src/main/java/com/napier/proj/dao/PopulationDAO.java:135-158 | a country with no cities is 0 % urban and 100 % non-urban |
| Scenarios.CountryWithCities | src/main/java/com/napier/proj/dao/PopulationDAO.java:135-158 | a country with 600000 of 1000000 in cities is 60 % urban and 40 % non-urban |
| Scenarios.CitiesExceedCountry | src/main/java/com/napier/proj/dao/PopulationDAO.java:135-158 | cities outnumbering their country give a negative non-city count and a 140 / -40 split, unclamped |
| Scenarios.UnknownNames | src/main/java/com/napier/proj/dao/PopulationDAO.java:198-261 | an unknown country gives no row, while an unknown continent gives one row read as 0 |

## Left out

- The database connection, `PreparedStatement` and `ResultSet` handling are
  not modelled; each method is given the store snapshot its query reads.
- The exception paths are not modelled. A failure part-way through a loop makes
  the Java method print a message and return the objects built so far.
- PopulationModel.RoundedPercent: the percentage is computed in exact rational
  arithmetic and stored as a whole number. The source divides two `double`s,
  multiplies by 100 and stores `Math.round` of that as a `double`. Rare
  double-rounding differences near a half are not captured.
- Counts are unbounded integers. 64-bit `long` overflow and the conversion of
  SQL `DECIMAL` sums to `long` are not modelled.
- The store's collation is a given strict total order on strings. Collations
  that treat distinct strings as equal (case- or accent-insensitive) are not
  modelled; under one, such keys would form one group.
- PopulationDao.PopulationDao.GetEachCountryPopulationWithUrbanAndNonUrban:
  the order among countries that share a name is left to the store by the
  source; the model keeps table order for them. The result's contents are
  stated through `BreakdownRecord` of the sorted rows.
- PopulationDao.PopulationDao.GetCountryPopulation: the query has no
  `ORDER BY`, so the store chooses the order of countries that share a name;
  the model fixes it to table order.
- PopulationDao.PopulationDao.GetCityPopulation: the same for cities that share
  a name; the model fixes their order to table order, which decides which one
  comes first.
- `GROUP BY co.Code` in the country breakdown is modelled as one row per row of
  the country table. That matches the source because `Code` is the primary key
  of `country`.
- `Population.name` starts as Java `null`; the model starts it as the empty
  string. Every DAO method sets the name before use.
- `Population` getters are plain field reads. Each setter's contract states
  what its getter then returns.
- `DatabaseConfig`, `App`, the report printers, the other DAOs (`CountryDAO`,
  `CityDAO`, `CapitalCityDAO`, `LanguageDAO`) and their beans are not part of
  this model. They only print, copy columns, or work in floating point.
