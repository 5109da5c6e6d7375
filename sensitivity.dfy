/** The sensitivity grid: the residual land value, in millions rounded to
    two decimals, for every pair of an inclusionary level (rows: 0, 10, 20,
    30 percent) and a density-bonus level (columns: 0, 20, ..., 100
    percent), the land, floor factor, market price and construction cost
    held at the scenario's values. */
module Sensitivity {
  import opened Valuation
  import opened Rounding
  import opened Labels

  const IhLevels: seq<nat> := [0, 10, 20, 30]
  const BonusLevels: seq<nat> := [0, 20, 40, 60, 80, 100]

  /** A labelled matrix: one row per inclusionary level, one column per
      bonus level. */
  datatype Table = Table(cells: seq<seq<real>>, rowLabels: seq<string>, columnLabels: seq<string>)

  /** One cell: the residual of one scenario, in millions, to two decimals. */
  function Cell(land: real, ff: real, ih: nat, bonus: nat, mPrice: real, cCost: real): real
  {
    Round2(CalculateMetrics(land, ff, bonus as real, ih as real, mPrice, cCost).rlv / 1000000.0)
  }

  /** The row of an inclusionary level: one cell per bonus level, in order. */
  function RowCells(land: real, ff: real, ih: nat, mPrice: real, cCost: real): (row: seq<real>)
    ensures |row| == |BonusLevels|
    ensures forall j :: 0 <= j < |BonusLevels| ==> row[j] == Cell(land, ff, ih, BonusLevels[j], mPrice, cCost)
  {
    seq(|BonusLevels|, j requires 0 <= j < |BonusLevels| => Cell(land, ff, ih, BonusLevels[j], mPrice, cCost))
  }

  /** The whole matrix: one row per inclusionary level, in order. */
  function GridCells(land: real, ff: real, mPrice: real, cCost: real): (grid: seq<seq<real>>)
    ensures |grid| == |IhLevels|
    ensures forall i :: 0 <= i < |IhLevels| ==> grid[i] == RowCells(land, ff, IhLevels[i], mPrice, cCost)
  {
    seq(|IhLevels|, i requires 0 <= i < |IhLevels| => RowCells(land, ff, IhLevels[i], mPrice, cCost))
  }

  /** The label of an inclusionary row, `f"{ih}% IH"`. */
  function IhLabel(ih: nat): string
  {
    NatToString(ih) + "% IH"
  }

  /** The label of a bonus column, `f"+{b}% Bonus"`. */
  function BonusLabel(b: nat): string
  {
    "+" + NatToString(b) + "% Bonus"
  }

  function RowLabels(): (labels: seq<string>)
    ensures |labels| == |IhLevels|
    ensures forall i :: 0 <= i < |IhLevels| ==> labels[i] == IhLabel(IhLevels[i])
  {
    seq(|IhLevels|, i requires 0 <= i < |IhLevels| => IhLabel(IhLevels[i]))
  }

  function ColumnLabels(): (labels: seq<string>)
    ensures |labels| == |BonusLevels|
    ensures forall j :: 0 <= j < |BonusLevels| ==> labels[j] == BonusLabel(BonusLevels[j])
  {
    seq(|BonusLevels|, j requires 0 <= j < |BonusLevels| => BonusLabel(BonusLevels[j]))
  }

  /** Builds the matrix row by row, appending one cell per bonus level to a
      row and one row per inclusionary level to the matrix. */
  method BuildSensitivityTable(landSize: real, ffVal: real, marketPrice: real, constCost: real)
    returns (t: Table)
    ensures t.cells == GridCells(landSize, ffVal, marketPrice, constCost)
    ensures |t.cells| == 4
    ensures forall i :: 0 <= i < 4 ==> |t.cells[i]| == 6
    ensures t.rowLabels == RowLabels() && t.columnLabels == ColumnLabels()
  {
    var matrix: seq<seq<real>> := [];
    var a := 0;
    while a < |IhLevels|
      invariant 0 <= a <= |IhLevels|
      invariant |matrix| == a
      invariant forall i :: 0 <= i < a ==> matrix[i] == RowCells(landSize, ffVal, IhLevels[i], marketPrice, constCost)
    {
      var ih := IhLevels[a];
      var row: seq<real> := [];
      var b := 0;
      while b < |BonusLevels|
        invariant 0 <= b <= |BonusLevels|
        invariant |row| == b
        invariant forall j :: 0 <= j < b ==> row[j] == Cell(landSize, ffVal, ih, BonusLevels[j], marketPrice, constCost)
      {
        var out := CalculateMetrics(landSize, ffVal, BonusLevels[b] as real, ih as real, marketPrice, constCost);
        row := row + [Round2(out.rlv / 1000000.0)];
        b := b + 1;
      }
      assert row == RowCells(landSize, ffVal, ih, marketPrice, constCost);
      matrix := matrix + [row];
      a := a + 1;
    }
    assert matrix == GridCells(landSize, ffVal, marketPrice, constCost);
    t := Table(matrix, RowLabels(), ColumnLabels());
  }

  /** The labels, written out: rows in inclusionary order, columns in bonus
      order. */
  lemma LabelsInOrder()
    ensures RowLabels() == ["0% IH", "10% IH", "20% IH", "30% IH"]
    ensures ColumnLabels() == ["+0% Bonus", "+20% Bonus", "+40% Bonus", "+60% Bonus", "+80% Bonus", "+100% Bonus"]
  {
    assert NatToString(10) == "10" && NatToString(20) == "20" && NatToString(30) == "30";
    var rows := RowLabels();
    assert rows[0] == "0% IH" && rows[1] == "10% IH" && rows[2] == "20% IH" && rows[3] == "30% IH";
    assert NatToString(40) == "40" && NatToString(60) == "60" && NatToString(80) == "80";
    assert NatToString(100) == "100";
    var cols := ColumnLabels();
    assert cols[0] == "+0% Bonus" && cols[1] == "+20% Bonus" && cols[2] == "+40% Bonus";
    assert cols[3] == "+60% Bonus" && cols[4] == "+80% Bonus" && cols[5] == "+100% Bonus";
  }

  /** Cell (i, j) is within half a hundredth of the unrounded residual, in
      millions, of the scenario with row i's inclusionary level and column
      j's bonus level. */
  lemma GridCellDefinition(land: real, ff: real, mPrice: real, cCost: real, i: nat, j: nat)
    requires i < |IhLevels| && j < |BonusLevels|
    ensures var grid := GridCells(land, ff, mPrice, cCost);
            var exact := CalculateMetrics(land, ff, BonusLevels[j] as real, IhLevels[i] as real, mPrice, cCost).rlv / 1000000.0;
            j < |grid[i]| && exact - 0.005 <= grid[i][j] <= exact + 0.005
  {
  }

  /** Along a row, more bonus never lowers a cell when each m² of that row's
      bulk has a non-negative residual. */
  lemma GridRowMonotone(land: real, ff: real, mPrice: real, cCost: real, i: nat, j: nat)
    requires 0.0 <= land && 0.0 <= ff
    requires i < |IhLevels| && j + 1 < |BonusLevels|
    requires 0.0 <= UnitResidual(IhLevels[i] as real, mPrice, cCost)
    ensures var grid := GridCells(land, ff, mPrice, cCost);
            grid[i][j] <= grid[i][j + 1]
  {
    var ih := IhLevels[i] as real;
    var b1, b2 := BonusLevels[j] as real, BonusLevels[j + 1] as real;
    RlvMonotoneInBonus(land, ff, b1, b2, ih, mPrice, cCost);
    var r1 := CalculateMetrics(land, ff, b1, ih, mPrice, cCost).rlv;
    var r2 := CalculateMetrics(land, ff, b2, ih, mPrice, cCost).rlv;
    assert r1 / 1000000.0 <= r2 / 1000000.0;
    Round2Monotone(r1 / 1000000.0, r2 / 1000000.0);
  }

  /** Down a column, more inclusionary housing never raises a cell when the
      market price is at least the break-even price and land and floor
      factor are non-negative. */
  lemma GridColumnAntitone(land: real, ff: real, mPrice: real, cCost: real, i: nat, j: nat)
    requires 0.0 <= land && 0.0 <= ff
    requires i + 1 < |IhLevels| && j < |BonusLevels|
    requires IhBreakEvenPrice <= mPrice
    ensures var grid := GridCells(land, ff, mPrice, cCost);
            grid[i + 1][j] <= grid[i][j]
  {
    var b := BonusLevels[j] as real;
    var ih1, ih2 := IhLevels[i] as real, IhLevels[i + 1] as real;
    assert 0.0 <= land * ff;
    assert 0.0 <= TotalBulk(land, ff, b);
    RlvAntitoneInInclusionary(land, ff, b, ih1, ih2, mPrice, cCost);
    var r1 := CalculateMetrics(land, ff, b, ih1, mPrice, cCost).rlv;
    var r2 := CalculateMetrics(land, ff, b, ih2, mPrice, cCost).rlv;
    assert r2 / 1000000.0 <= r1 / 1000000.0;
    Round2Monotone(r2 / 1000000.0, r1 / 1000000.0);
  }

  /** The corner cell for the worked example's land and prices (no
      inclusionary housing, no bonus) is its residual in millions: 1000 m²
      of floor factor 1.0 at 45000 and 17000 per m² leave 16.36 million. */
  lemma GridCornerExample()
    ensures GridCells(1000.0, 1.0, 45000.0, 17000.0)[0][0] == 16.36
  {
    var rlv := CalculateMetrics(1000.0, 1.0, 0.0, 0.0, 45000.0, 17000.0).rlv;
    assert rlv == 16360900.0;
    RoundHalfEvenNearest(rlv / 1000000.0 * 100.0, 1636);
  }
}
