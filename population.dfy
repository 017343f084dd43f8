/** The `Population` bean: a name, three population counts and two
    percentages, which the percentage setters derive from the counts. */
module PopulationModel {

  /** `Math.round(100 * part / total)` when `total` is positive, else 0:
      100 * part / total rounded to the nearest whole number, halves up. */
  function RoundedPercent(part: int, total: int): (r: int)
    ensures total <= 0 ==> r == 0
    ensures total > 0 ==> 2 * total * r <= 200 * part + total < 2 * total * (r + 1)
  {
    if total > 0 then (200 * part + total) / (2 * total) else 0
  }

  /** With a positive total and a part between 0 and the total, the rounded
      percentage lies between 0 and 100. */
  lemma PercentBounds(part: int, total: int)
    requires total > 0 && 0 <= part <= total
    ensures 0 <= RoundedPercent(part, total) <= 100
  {
    var r := RoundedPercent(part, total);
    if r < 0 {
      MulMonotone(total, r + 1, 0);
    }
    if r > 100 {
      MulMonotone(total, 101, r);
    }
  }

  /** Nothing is clamped: a negative part over a positive total rounds to a
      percentage of at most 0. */
  lemma NegativePartNonPositive(part: int, total: int)
    requires total > 0 && part < 0
    ensures RoundedPercent(part, total) <= 0
  {
  }

  /** The two percentages of a split are rounded independently: they add up
      to 100, or to 101 when both land exactly on a half. */
  lemma PercentagesOfSplit(part: int, rest: int, total: int)
    requires total > 0 && part + rest == total
    ensures 100 <= RoundedPercent(part, total) + RoundedPercent(rest, total) <= 101
  {
    var a, b := RoundedPercent(part, total), RoundedPercent(rest, total);
    // 2t(a + b) <= 202t < 2t(a + b) + 4t
    assert 2 * total * (a + b) <= 202 * total < 2 * total * (a + b + 2);
    if a + b > 101 {
      MulMonotone(total, 102, a + b);
    }
    if a + b < 100 {
      MulMonotone(total, a + b + 2, 101);
    }
  }

  /** Multiplying by a positive number keeps order. */
  lemma MulMonotone(t: int, x: int, y: int)
    requires t > 0 && x <= y
    ensures 2 * t * x <= 2 * t * y
  {
  }

  /** The values of a `Population` object's six fields. */
  datatype PopulationRecord = PopulationRecord(
    name: string,
    totalPopulation: int,
    cityPopulation: int,
    nonCityPopulation: int,
    cityPercentage: int,
    nonCityPercentage: int)

  /** A freshly constructed object: every number 0, no name yet. */
  const Initial := PopulationRecord("", 0, 0, 0, 0, 0)

  /** What `setCityPercentage` makes of the fields. */
  function WithCityPercentage(r: PopulationRecord): PopulationRecord
  {
    r.(cityPercentage := RoundedPercent(r.cityPopulation, r.totalPopulation))
  }

  /** What `setNonCityPercentage` makes of the fields. */
  function WithNonCityPercentage(r: PopulationRecord): PopulationRecord
  {
    r.(nonCityPercentage := RoundedPercent(r.nonCityPopulation, r.totalPopulation))
  }

  /** A percentage is a snapshot of the counts: setting it again with no
      count changed in between changes nothing, and setting the other one
      first or afterwards makes no difference. */
  lemma PercentageSettersIdempotent(r: PopulationRecord)
    ensures WithCityPercentage(WithCityPercentage(r)) == WithCityPercentage(r)
    ensures WithNonCityPercentage(WithNonCityPercentage(r)) == WithNonCityPercentage(r)
    ensures WithCityPercentage(WithNonCityPercentage(r)) == WithNonCityPercentage(WithCityPercentage(r))
  {
  }

  class Population {
    var name: string
    var totalPopulation: int
    var cityPopulation: int
    var nonCityPopulation: int
    var cityPercentage: int
    var nonCityPercentage: int

    /** The current values of all six fields. */
    function Snapshot(): PopulationRecord
      reads this
    {
      PopulationRecord(name, totalPopulation, cityPopulation, nonCityPopulation, cityPercentage, nonCityPercentage)
    }

    constructor ()
      ensures Snapshot() == Initial
    {
      name := "";
      totalPopulation, cityPopulation, nonCityPopulation := 0, 0, 0;
      cityPercentage, nonCityPercentage := 0, 0;
    }

    function GetName(): string reads this { name }
    function GetTotalPopulation(): int reads this { totalPopulation }
    function GetCityPopulation(): int reads this { cityPopulation }
    function GetNonCityPopulation(): int reads this { nonCityPopulation }
    function GetCityPercentage(): int reads this { cityPercentage }
    function GetNonCityPercentage(): int reads this { nonCityPercentage }

    method SetName(n: string)
      modifies this
      ensures GetName() == n
      ensures Snapshot() == old(Snapshot()).(name := n)
    {
      name := n;
    }

    method SetTotalPopulation(t: int)
      modifies this
      ensures GetTotalPopulation() == t
      ensures Snapshot() == old(Snapshot()).(totalPopulation := t)
    {
      totalPopulation := t;
    }

    method SetCityPopulation(c: int)
      modifies this
      ensures GetCityPopulation() == c
      ensures Snapshot() == old(Snapshot()).(cityPopulation := c)
    {
      cityPopulation := c;
    }

    method SetNonCityPopulation(n: int)
      modifies this
      ensures GetNonCityPopulation() == n
      ensures Snapshot() == old(Snapshot()).(nonCityPopulation := n)
    {
      nonCityPopulation := n;
    }

    /** Divides only when the total is positive; otherwise stores 0. */
    method SetCityPercentage()
      modifies this
      ensures old(totalPopulation) <= 0 ==> GetCityPercentage() == 0
      ensures old(totalPopulation) > 0 ==>
        2 * totalPopulation * cityPercentage <= 200 * cityPopulation + totalPopulation < 2 * totalPopulation * (cityPercentage + 1)
      ensures Snapshot() == WithCityPercentage(old(Snapshot()))
    {
      if totalPopulation > 0 {
        cityPercentage := (200 * cityPopulation + totalPopulation) / (2 * totalPopulation);
      } else {
        cityPercentage := 0;
      }
    }

    /** Divides only when the total is positive; otherwise stores 0. */
    method SetNonCityPercentage()
      modifies this
      ensures old(totalPopulation) <= 0 ==> GetNonCityPercentage() == 0
      ensures old(totalPopulation) > 0 ==>
        2 * totalPopulation * nonCityPercentage <= 200 * nonCityPopulation + totalPopulation < 2 * totalPopulation * (nonCityPercentage + 1)
      ensures Snapshot() == WithNonCityPercentage(old(Snapshot()))
    {
      if totalPopulation > 0 {
        nonCityPercentage := (200 * nonCityPopulation + totalPopulation) / (2 * totalPopulation);
      } else {
        nonCityPercentage := 0;
      }
    }
  }
}
