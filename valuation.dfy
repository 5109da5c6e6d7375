/** The valuation engine: residual land value by the residual method.
    Bulk (gross buildable floor area) is land × floor factor, raised by the
    density bonus; a share of it is inclusionary housing, sold at a capped
    price and exempt from development charges; the rest sells at market.
    The residual land value is what is left of the gross development value
    after construction, professional fees (12.5% of construction),
    development charges and the developer's target profit (20% of GDV).
    All quantities are exact reals; nothing is clamped, so a residual may be
    negative. */
module Valuation {

  /** Development charge per m² of market-rate bulk. */
  const DcRate: real := 514.10
  /** Sale price per m² of inclusionary (price-capped) bulk. */
  const IhCapPrice: real := 15000.0
  /** Professional fees, as a fraction of construction cost. */
  const FeeRate: real := 0.125
  /** Developer's target profit, as a fraction of GDV. */
  const ProfitMargin: real := 0.20

  /** The engine's result: residual land value, total bulk, development
      charges and gross development value. */
  datatype Metrics = Metrics(rlv: real, bulk: real, dcs: real, gdv: real)

  /** Total bulk: land × floor factor, raised by `bonus` percent. */
  function TotalBulk(land: real, ff: real, bonus: real): real
  {
    (land * ff) * (1.0 + bonus / 100.0)
  }

  /** The inclusionary share of a bulk, for `ih` percent inclusionary housing. */
  function IhBulk(total: real, ih: real): real
  {
    total * (ih / 100.0)
  }

  /** The market-rate share of a bulk. */
  function MarketBulk(total: real, ih: real): real
  {
    total - IhBulk(total, ih)
  }

  /** Revenue per m² of bulk: the market price on the market share and the
      capped price on the inclusionary share. */
  function BlendedPrice(ih: real, mPrice: real): real
  {
    (1.0 - ih / 100.0) * mPrice + (ih / 100.0) * IhCapPrice
  }

  /** Residual per m² of bulk: what each m² contributes to the land value. */
  function UnitResidual(ih: real, mPrice: real, cCost: real): real
  {
    (1.0 - ProfitMargin) * BlendedPrice(ih, mPrice)
    - (1.0 + FeeRate) * cCost
    - (1.0 - ih / 100.0) * DcRate
  }

  /** The engine: one scenario's metrics, in the source's order of steps.
      Its contract states the bulk as land × floor factor raised by the
      bonus, and each other output per m² of that bulk: GDV at the blended
      price, charges on the market share only, and the residual as bulk
      times the per-m² residual. */
  function CalculateMetrics(land: real, ff: real, bonus: real, ih: real, mPrice: real, cCost: real): (m: Metrics)
    ensures m.bulk == land * ff * (1.0 + bonus / 100.0)
    ensures m.gdv == m.bulk * BlendedPrice(ih, mPrice)
    ensures m.dcs == m.bulk * (1.0 - ih / 100.0) * DcRate
    ensures m.rlv == m.bulk * UnitResidual(ih, mPrice, cCost)
  {
    var totalBulk := TotalBulk(land, ff, bonus);
    var ihBulk := IhBulk(totalBulk, ih);
    var marketBulk := MarketBulk(totalBulk, ih);
    var gdv := marketBulk * mPrice + ihBulk * IhCapPrice;
    var devCharges := marketBulk * DcRate;
    var construction := totalBulk * cCost;
    var fees := construction * FeeRate;
    var profitTarget := gdv * ProfitMargin;
    var rlv := gdv - construction - devCharges - fees - profitTarget;
    Metrics(rlv, totalBulk, devCharges, gdv)
  }

  /** For positive land, floor factor and market price, a non-negative bonus
      and an inclusionary share in [0, 100], bulk and GDV are positive and
      development charges are not negative. */
  lemma OutputSigns(land: real, ff: real, bonus: real, ih: real, mPrice: real, cCost: real)
    requires 0.0 < land && 0.0 < ff && 0.0 <= bonus
    requires 0.0 <= ih <= 100.0 && 0.0 < mPrice
    ensures var m := CalculateMetrics(land, ff, bonus, ih, mPrice, cCost);
            0.0 < m.bulk && 0.0 < m.gdv && 0.0 <= m.dcs
  {
    var t := TotalBulk(land, ff, bonus);
    assert 0.0 < land * ff;
    assert 0.0 < t;
    var share := 1.0 - ih / 100.0;
    assert 0.0 <= share;
    assert 0.0 < BlendedPrice(ih, mPrice) by {
      assert 0.0 <= share * mPrice;
      assert 0.0 <= (ih / 100.0) * IhCapPrice;
      if ih < 100.0 {
        assert 0.0 < share * mPrice;
      } else {
        assert (ih / 100.0) * IhCapPrice == IhCapPrice;
      }
    }
    assert 0.0 < t * BlendedPrice(ih, mPrice);
    assert 0.0 <= t * share;
    assert 0.0 <= t * share * DcRate;
  }

  /** Inclusionary and market bulk partition the total bulk exactly. */
  lemma BulkSplit(total: real, ih: real)
    ensures IhBulk(total, ih) + MarketBulk(total, ih) == total
    ensures IhBulk(total, ih) == total * ih / 100.0
    ensures 0.0 <= total && 0.0 <= ih <= 100.0 ==>
              0.0 <= IhBulk(total, ih) <= total && 0.0 <= MarketBulk(total, ih) <= total
  {
    if 0.0 <= total && 0.0 <= ih <= 100.0 {
      assert total * (ih / 100.0) <= total * 1.0;
    }
  }

  /** With no bonus, total bulk is land × floor factor. */
  lemma TotalBulkWithoutBonus(land: real, ff: real)
    ensures TotalBulk(land, ff, 0.0) == land * ff
  {
  }

  /** Total bulk never decreases as the density bonus grows. */
  lemma TotalBulkMonotoneInBonus(land: real, ff: real, b1: real, b2: real)
    requires 0.0 <= land && 0.0 <= ff
    requires b1 <= b2
    ensures TotalBulk(land, ff, b1) <= TotalBulk(land, ff, b2)
  {
    var base := land * ff;
    assert 0.0 <= base;
    assert base * (1.0 + b1 / 100.0) <= base * (1.0 + b2 / 100.0);
  }

  /** The residual as the source's formula reduces it: 80% of GDV, less
      construction with fees, less development charges. */
  lemma ResidualForm(land: real, ff: real, bonus: real, ih: real, mPrice: real, cCost: real)
    ensures var m := CalculateMetrics(land, ff, bonus, ih, mPrice, cCost);
            m.rlv == 0.8 * m.gdv - 1.125 * (m.bulk * cCost) - m.dcs
  {
  }

  /** Without inclusionary housing all bulk sells at market and pays charges. */
  lemma NoInclusionary(land: real, ff: real, bonus: real, mPrice: real, cCost: real)
    ensures var m := CalculateMetrics(land, ff, bonus, 0.0, mPrice, cCost);
            m.gdv == m.bulk * mPrice && m.dcs == m.bulk * 514.1
  {
  }

  /** With all bulk inclusionary, everything sells at the cap and no charges
      are levied. */
  lemma AllInclusionary(land: real, ff: real, bonus: real, mPrice: real, cCost: real)
    ensures var m := CalculateMetrics(land, ff, bonus, 100.0, mPrice, cCost);
            m.gdv == m.bulk * 15000.0 && m.dcs == 0.0
  {
  }

  /** GDV never decreases as the market price rises, for a non-negative bulk
      and an inclusionary share of at most 100%. */
  lemma GdvMonotoneInPrice(land: real, ff: real, bonus: real, ih: real, p1: real, p2: real, cCost: real)
    requires 0.0 <= TotalBulk(land, ff, bonus)
    requires ih <= 100.0
    requires p1 <= p2
    ensures CalculateMetrics(land, ff, bonus, ih, p1, cCost).gdv
         <= CalculateMetrics(land, ff, bonus, ih, p2, cCost).gdv
  {
    var t := TotalBulk(land, ff, bonus);
    var share := 1.0 - ih / 100.0;
    assert BlendedPrice(ih, p2) - BlendedPrice(ih, p1) == share * (p2 - p1);
    assert 0.0 <= share * (p2 - p1);
    assert t * BlendedPrice(ih, p1) <= t * BlendedPrice(ih, p2);
  }

  /** The residual never decreases as the market price rises, for a
      non-negative bulk and an inclusionary share of at most 100%. */
  lemma RlvMonotoneInPrice(land: real, ff: real, bonus: real, ih: real, p1: real, p2: real, cCost: real)
    requires 0.0 <= TotalBulk(land, ff, bonus)
    requires ih <= 100.0
    requires p1 <= p2
    ensures CalculateMetrics(land, ff, bonus, ih, p1, cCost).rlv
         <= CalculateMetrics(land, ff, bonus, ih, p2, cCost).rlv
  {
    var t := TotalBulk(land, ff, bonus);
    var share := 1.0 - ih / 100.0;
    assert UnitResidual(ih, p2, cCost) - UnitResidual(ih, p1, cCost) == 0.8 * share * (p2 - p1);
    assert 0.0 <= share * (p2 - p1);
    assert t * UnitResidual(ih, p1, cCost) <= t * UnitResidual(ih, p2, cCost);
  }

  /** The residual never increases as construction cost rises, for
      non-negative land and floor factor and a bonus of at least -100%. */
  lemma RlvAntitoneInCost(land: real, ff: real, bonus: real, ih: real, mPrice: real, c1: real, c2: real)
    requires 0.0 <= land && 0.0 <= ff && -100.0 <= bonus
    requires c1 <= c2
    ensures CalculateMetrics(land, ff, bonus, ih, mPrice, c2).rlv
         <= CalculateMetrics(land, ff, bonus, ih, mPrice, c1).rlv
  {
    assert 0.0 <= land * ff;
    var t := TotalBulk(land, ff, bonus);
    assert 0.0 <= t;
    assert UnitResidual(ih, mPrice, c2) <= UnitResidual(ih, mPrice, c1);
    assert t * UnitResidual(ih, mPrice, c2) <= t * UnitResidual(ih, mPrice, c1);
  }

  /** The lowest market price at which inclusionary housing costs the
      developer: below it, the charges saved on capped units outweigh the
      revenue given up (`RlvMonotoneInInclusionaryBelowBreakEven`). */
  const IhBreakEvenPrice: real := IhCapPrice + DcRate / (1.0 - ProfitMargin)

  /** Inclusionary housing never raises the residual when the market price
      is at least the break-even price, for a non-negative bulk. */
  lemma RlvAntitoneInInclusionary(land: real, ff: real, bonus: real, ih1: real, ih2: real, mPrice: real, cCost: real)
    requires 0.0 <= TotalBulk(land, ff, bonus)
    requires IhBreakEvenPrice <= mPrice
    requires ih1 <= ih2
    ensures CalculateMetrics(land, ff, bonus, ih2, mPrice, cCost).rlv
         <= CalculateMetrics(land, ff, bonus, ih1, mPrice, cCost).rlv
  {
    var t := TotalBulk(land, ff, bonus);
    var d := (ih2 - ih1) / 100.0;
    assert UnitResidual(ih1, mPrice, cCost) - UnitResidual(ih2, mPrice, cCost)
        == d * (0.8 * (mPrice - IhCapPrice) - DcRate);
    assert 0.0 <= 0.8 * (mPrice - IhCapPrice) - DcRate;
    assert 0.0 <= d * (0.8 * (mPrice - IhCapPrice) - DcRate);
    assert t * UnitResidual(ih2, mPrice, cCost) <= t * UnitResidual(ih1, mPrice, cCost);
  }

  /** Below the break-even price, more inclusionary housing strictly raises
      the residual of a positive bulk: the development charges saved on the
      capped units outweigh the revenue given up. */
  lemma RlvMonotoneInInclusionaryBelowBreakEven(land: real, ff: real, bonus: real, ih1: real, ih2: real, mPrice: real, cCost: real)
    requires 0.0 < TotalBulk(land, ff, bonus)
    requires mPrice < IhBreakEvenPrice
    requires ih1 < ih2
    ensures CalculateMetrics(land, ff, bonus, ih1, mPrice, cCost).rlv
          < CalculateMetrics(land, ff, bonus, ih2, mPrice, cCost).rlv
  {
    var t := TotalBulk(land, ff, bonus);
    var d := (ih2 - ih1) / 100.0;
    assert UnitResidual(ih2, mPrice, cCost) - UnitResidual(ih1, mPrice, cCost)
        == d * (DcRate - 0.8 * (mPrice - IhCapPrice));
    assert 0.0 < DcRate - 0.8 * (mPrice - IhCapPrice);
    assert 0.0 < d * (DcRate - 0.8 * (mPrice - IhCapPrice));
    assert t * UnitResidual(ih1, mPrice, cCost) < t * UnitResidual(ih2, mPrice, cCost);
  }

  /** The density bonus never lowers the residual when each m² of bulk has a
      non-negative residual (for non-negative land and floor factor). */
  lemma RlvMonotoneInBonus(land: real, ff: real, b1: real, b2: real, ih: real, mPrice: real, cCost: real)
    requires 0.0 <= land && 0.0 <= ff
    requires b1 <= b2
    requires 0.0 <= UnitResidual(ih, mPrice, cCost)
    ensures CalculateMetrics(land, ff, b1, ih, mPrice, cCost).rlv
         <= CalculateMetrics(land, ff, b2, ih, mPrice, cCost).rlv
  {
    TotalBulkMonotoneInBonus(land, ff, b1, b2);
    var u := UnitResidual(ih, mPrice, cCost);
    assert TotalBulk(land, ff, b1) * u <= TotalBulk(land, ff, b2) * u;
  }

  /** A density bonus of `bonus` percent offsets an inclusionary requirement
      of `ih` percent, restoring at least the residual of the unencumbered
      scheme, exactly when the bonus-scaled per-m² residual is at least the
      unencumbered one. */
  lemma BonusOffsetsInclusionary(land: real, ff: real, bonus: real, ih: real, mPrice: real, cCost: real)
    requires 0.0 < land && 0.0 < ff
    ensures CalculateMetrics(land, ff, 0.0, 0.0, mPrice, cCost).rlv
              <= CalculateMetrics(land, ff, bonus, ih, mPrice, cCost).rlv
        <==> UnitResidual(0.0, mPrice, cCost) <= (1.0 + bonus / 100.0) * UnitResidual(ih, mPrice, cCost)
  {
    var base := land * ff;
    assert 0.0 < base;
    var lhs := UnitResidual(0.0, mPrice, cCost);
    var rhs := (1.0 + bonus / 100.0) * UnitResidual(ih, mPrice, cCost);
    assert CalculateMetrics(land, ff, 0.0, 0.0, mPrice, cCost).rlv == base * lhs;
    assert CalculateMetrics(land, ff, bonus, ih, mPrice, cCost).rlv == base * rhs;
    assert base * lhs <= base * rhs <==> lhs <= rhs;
  }

  /** The worked example: 1000 m² of GR2 land, 20% bonus, 20% inclusionary,
      market price 45000 and construction 17000 per m². */
  lemma WorkedExample()
    ensures CalculateMetrics(1000.0, 1.0, 20.0, 20.0, 45000.0, 17000.0)
         == Metrics(13996464.0, 1200.0, 493536.0, 46800000.0)
  {
  }

  /** The residual is not clamped: a dear build on cheap sales gives a
      negative land value. */
  lemma RlvCanBeNegative()
    ensures CalculateMetrics(1000.0, 1.0, 0.0, 30.0, 20000.0, 25000.0).rlv == -13684870.0
  {
  }
}
