/** One scenario from the user's choices to its metrics: the parking zone
    adjusts the construction cost, the zoning preset supplies the floor
    factor, and the engine values the scheme. An unknown preset is an error,
    and no metrics are produced for it. */
module Scenario {
  import opened Zoning
  import opened Valuation
  import opened Parking

  /** The user's choices: land area, zoning preset, parking zone, market
      price and base construction cost per m², and the two policy levers in
      percent. */
  datatype Choices = Choices(
    landSize: real,
    zoneChoice: string,
    parkingZone: string,
    marketPrice: real,
    constCostBase: real,
    ihReq: real,
    densityBonus: real)

  /** The metrics of a scenario, or the zoning lookup's failure. */
  function ScenarioMetrics(c: Choices): (r: Result<Metrics, ZoningError>)
    ensures r.Ok? <==> c.zoneChoice in Keys()
    ensures r.Err? ==> r.error == UnknownZoning(c.zoneChoice)
    ensures r.Ok? ==> exists i :: (0 <= i < |Table| && Table[i].key == c.zoneChoice
              && r.value == CalculateMetrics(c.landSize, Table[i].ff, c.densityBonus, c.ihReq,
                                             c.marketPrice, AdjustedCost(c.parkingZone, c.constCostBase)))
  {
    var constCost := AdjustedCost(c.parkingZone, c.constCostBase);
    match FloorFactor(c.zoneChoice)
    case Ok(ff) => Ok(CalculateMetrics(c.landSize, ff, c.densityBonus, c.ihReq, c.marketPrice, constCost))
    case Err(e) => Err(e)
  }

  /** The default scenario (GR2, standard parking) gives the worked example's
      metrics; the same scheme in a PT2 zone is worth more; an unknown
      preset gives an error. */
  lemma DefaultScenario()
    ensures ScenarioMetrics(Choices(1000.0, Table[0].key, Standard, 45000.0, 17000.0, 20.0, 20.0))
         == Ok(Metrics(13996464.0, 1200.0, 493536.0, 46800000.0))
    ensures ScenarioMetrics(Choices(1000.0, Table[0].key, Pt2, 45000.0, 17000.0, 20.0, 20.0))
         == Ok(Metrics(17438964.0, 1200.0, 493536.0, 46800000.0))
    ensures ScenarioMetrics(Choices(1000.0, "ZZ9", Standard, 45000.0, 17000.0, 20.0, 20.0))
         == Err(UnknownZoning("ZZ9"))
  {
    FloorFactorOfEachPreset(0);
    UnknownKeysFail();
  }

  /** A scenario whose preset is entry i of the catalogue is valued with that
      entry's floor factor and the parking-adjusted cost. */
  lemma ScenarioOfPreset(c: Choices, i: nat)
    requires i < |Table| && Table[i].key == c.zoneChoice
    ensures ScenarioMetrics(c) == Ok(CalculateMetrics(c.landSize, Table[i].ff, c.densityBonus, c.ihReq,
                                                      c.marketPrice, AdjustedCost(c.parkingZone, c.constCostBase)))
  {
    FloorFactorOfEachPreset(i);
  }

  /** Moving a scenario out of the standard parking zone never lowers its
      residual, for non-negative land and base cost and a bonus of at least
      -100%. */
  lemma ReducedParkingNeverLowersValue(c: Choices, zone: string)
    requires c.zoneChoice in Keys()
    requires 0.0 <= c.landSize && -100.0 <= c.densityBonus && 0.0 <= c.constCostBase
    ensures ScenarioMetrics(c.(parkingZone := Standard)).Ok?
    ensures ScenarioMetrics(c.(parkingZone := zone)).Ok?
    ensures ScenarioMetrics(c.(parkingZone := Standard)).value.rlv
         <= ScenarioMetrics(c.(parkingZone := zone)).value.rlv
  {
    var i :| 0 <= i < |Table| && Keys()[i] == c.zoneChoice;
    var ff := Table[i].ff;
    assert 0.0 <= ff by {
      FloorFactorsInOrder();
      assert Table[i] in Table;
    }
    var cost := AdjustedCost(zone, c.constCostBase);
    RlvAntitoneInCost(c.landSize, ff, c.densityBonus, c.ihReq, c.marketPrice, cost, c.constCostBase);
    ScenarioOfPreset(c.(parkingZone := Standard), i);
    ScenarioOfPreset(c.(parkingZone := zone), i);
  }
}
