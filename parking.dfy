/** The parking-zone adjustment of construction cost. In a reduced-parking
    public-transport zone less parking has to be built, so construction is
    cheaper per m²: 5% off in PT1, 15% off in PT2, nothing off elsewhere.
    Zones are the labels the user picks from. */
module Parking {

  const Standard: string := "Standard"
  const Pt1: string := "PT1 (Reduced)"
  const Pt2: string := "PT2 (Zero)"

  /** The factor applied to the base construction cost in a parking zone:
      0.85 for PT2, 0.95 for PT1 and 1 for any other label. */
  function CostMultiplier(zone: string): (k: real)
    ensures zone == Pt2 ==> k == 0.85
    ensures zone == Pt1 ==> k == 0.95
    ensures zone != Pt1 && zone != Pt2 ==> k == 1.0
    ensures 0.85 <= k <= 1.0
  {
    if zone == Pt2 then 0.85
    else if zone == Pt1 then 0.95
    else 1.0
  }

  /** The construction cost per m² after the parking adjustment. */
  function AdjustedCost(zone: string, base: real): (c: real)
    ensures c == base * CostMultiplier(zone)
    ensures 0.0 <= base ==> 0.85 * base <= c <= base
    ensures c == base <==> (base == 0.0 || (zone != Pt1 && zone != Pt2))
  {
    if zone == Pt2 then base * 0.85
    else if zone == Pt1 then base * 0.95
    else base
  }

  /** Less parking never costs more: for a non-negative base cost, PT2 is at
      most PT1, which is at most the standard zone, which is the base cost. */
  lemma AdjustedCostOrder(base: real)
    requires 0.0 <= base
    ensures AdjustedCost(Pt2, base) <= AdjustedCost(Pt1, base)
    ensures AdjustedCost(Pt1, base) <= AdjustedCost(Standard, base)
    ensures AdjustedCost(Standard, base) == base
  {
  }
}
