/** The feature vector compute produces, slot by slot, as a function of the
    problem, and what holds of it. */
module FeatureValues {
  import opened Numerics
  import opened Stats
  import opened Problem
  import opened Slots
  import opened RowClass
  import opened Totals

  /** The divisions in compute by the number of rows, of columns and of
      nonzeros need all three to be positive. */
  predicate Computable(p: Instance) {
    WellFormed(p) && |p.rows| > 0 && |p.cols| > 0 && NumElements(p.rows) > 0
  }

  /** Output i of a finished summary of s, in the order of the vector:
      min, max, average, standard deviation (not modelled, left 0), ratio of
      largest to smallest magnitude, all-integral flag, integral percentage. */
  function SummaryOutput(s: seq<Double>, i: nat): real
    requires |s| > 0
  {
    if i == 0 then MinOf(s)
    else if i == 1 then MaxOf(s)
    else if i == 2 then Average(s)
    else if i == 4 then RatioLSA(s)
    else if i == 5 then AllIntFlag(s) as real
    else if i == 6 then PercIntegral(s)
    else 0.0
  }

  /** features[k] after compute. Every class counter and degree counter of
      the row pass lies between 0 and the number of rows, every counter of
      the column pass between 0 and the number of columns, and every
      percentage between 0 and 100. */
  function SlotValue(p: Instance, k: nat): (v: real)
    requires Computable(p)
    ensures RowsSingleton <= k < ColsBin ==> 0.0 <= v <= |p.rows| as real
    ensures ColsBin <= k < PercRowsPartitioning ==> 0.0 <= v <= |p.cols| as real
    ensures PercRowsPartitioning <= k < AMin ==> 0.0 <= v <= 100.0
  {
    var nR := |p.rows|;
    var nC := |p.cols|;
    if k == Cols then nC as real
    else if k == Rows then nR as real
    else if k == ColsPerRow then nC as real / nR as real
    else if k == Nz then NumElements(p.rows) as real
    else if k == Density then (NumElements(p.rows) as real / (nC as real * nR as real)) * 100.0
    else if k < ColsBin then RowTotal(p.rows, p.cols, k) as real
    else if k < PercRowsPartitioning then ColTotal(p.cols, k) as real
    // the flow percentages divide their own, still zero, slots
    else if k == PercRowsFlowBin || k == PercRowsFlowMx then 0.0
    else if k < PercInteger then Percent(RowTotal(p.rows, p.cols, PercentageOf(k)), nR)
    else if k == PercInteger then Percent(ColTotal(p.cols, ColsInteger), nC)
    else if k == PercBin then Percent(ColTotal(p.cols, ColsBin), nC)
    else if k < PercColLadder then Percent(RowTotal(p.rows, p.cols, k - PercRowLadder + RowLadder), nR)
    else if k < AMin then Percent(ColTotal(p.cols, k - PercColLadder + ColLadder), nC)
    else if k < ObjMin then SummaryOutput(AllCoefs(p.rows), k - AMin)
    else if k < RhsMin then SummaryOutput(ObjValues(p.cols), k - ObjMin)
    else if k < RowNzMin then SummaryOutput(RhsValues(p.rows), k - RhsMin)
    else if k < RowNzStdDev then SummaryOutput(RowLengths(p.rows), k - RowNzMin)
    else if k == ColNzMin then MinOf(ColLengths(p.cols))
    else if k == ColNzMax then MaxOf(ColLengths(p.cols))
    // the standard deviations are not modelled; colNzSumm is never
    // finished, so its average keeps the constructor's 0; the equality and
    // knapsack percentages are never written and keep the 0 of the zeroing
    else 0.0
  }

  /** equalities + inequalities == rows. */
  lemma SenseSlots(p: Instance)
    requires Computable(p)
    ensures SlotValue(p, Equalities) + SlotValue(p, Inequalities) == SlotValue(p, Rows)
  {
    SenseTotals(p.rows, p.cols);
  }

  /** bin + genInt == integer and integer + continuous == cols; hence the
      binary percentage never exceeds the integer percentage. */
  lemma ColumnTypeSlots(p: Instance)
    requires Computable(p)
    ensures SlotValue(p, ColsBin) + SlotValue(p, ColsGenInt) == SlotValue(p, ColsInteger)
    ensures SlotValue(p, ColsInteger) + SlotValue(p, ColsContinuous) == SlotValue(p, Cols)
    ensures SlotValue(p, PercBin) <= SlotValue(p, PercInteger)
  {
    ColTypeTotals(p.cols);
    PercentMonotone(ColTotal(p.cols, ColsBin), ColTotal(p.cols, ColsInteger), |p.cols|);
  }

  /** The partitioning, covering and packing slots together never exceed
      the number of rows. */
  lemma SetPartitioningSlots(p: Instance)
    requires Computable(p)
    ensures SlotValue(p, RowsPartitioning) + SlotValue(p, RowsCovering) + SlotValue(p, RowsPacking)
            <= SlotValue(p, Rows)
  {
    SetPartitioningTotals(p.rows, p.cols);
  }

  /** The precedence and integer-knapsack counters and their percentages
      are zero on every problem. */
  lemma NeverCountedSlots(p: Instance)
    requires Computable(p)
    ensures SlotValue(p, RowsPrec) == 0.0 && SlotValue(p, PercRowsPrec) == 0.0
    ensures SlotValue(p, RowsIntegerKnapsack) == 0.0 && SlotValue(p, PercRowsIntegerKnapsack) == 0.0
  {
    NeverCounted(p.rows, p.cols);
  }

  /** The row degree ladder is nested in the vector: within the "at most"
      half a slot never exceeds the next one, within the "at least" half a
      slot never exceeds the previous one. */
  lemma RowLadderSlotsNested(p: Instance, i: nat)
    requires Computable(p) && i < LadderSize - 1 && i != AtMostCount - 1
    ensures i < AtMostCount ==> SlotValue(p, RowLadder + i) <= SlotValue(p, RowLadder + i + 1)
    ensures i >= AtMostCount ==> SlotValue(p, RowLadder + i + 1) <= SlotValue(p, RowLadder + i)
  {
    RowLadderNested(p.rows, p.cols, RowLadder + i);
    assert SlotValue(p, RowLadder + i) == RowTotal(p.rows, p.cols, RowLadder + i) as real;
    assert SlotValue(p, RowLadder + i + 1) == RowTotal(p.rows, p.cols, RowLadder + i + 1) as real;
  }

  /** The column degree ladder is nested in the same way. */
  lemma ColLadderSlotsNested(p: Instance, i: nat)
    requires Computable(p) && i < LadderSize - 1 && i != AtMostCount - 1
    ensures i < AtMostCount ==> SlotValue(p, ColLadder + i) <= SlotValue(p, ColLadder + i + 1)
    ensures i >= AtMostCount ==> SlotValue(p, ColLadder + i + 1) <= SlotValue(p, ColLadder + i)
  {
    ColLadderNested(p.cols, ColLadder + i);
    assert SlotValue(p, ColLadder + i) == ColTotal(p.cols, ColLadder + i) as real;
    assert SlotValue(p, ColLadder + i + 1) == ColTotal(p.cols, ColLadder + i + 1) as real;
  }

  /** Slot i of each ladder counts exactly the rows (columns) with at most,
      or at least, its threshold of nonzeros. */
  lemma LadderSlotsMeaning(p: Instance, i: nat)
    requires Computable(p) && i < LadderSize
    ensures i < AtMostCount ==>
              SlotValue(p, RowLadder + i) == RowsWithAtMost(p.rows, Thresholds[i]) as real
              && SlotValue(p, ColLadder + i) == ColsWithAtMost(p.cols, Thresholds[i]) as real
    ensures i >= AtMostCount ==>
              SlotValue(p, RowLadder + i) == RowsWithAtLeast(p.rows, Thresholds[i - AtMostCount]) as real
              && SlotValue(p, ColLadder + i) == ColsWithAtLeast(p.cols, Thresholds[i - AtMostCount]) as real
  {
    RowLadderCounts(p.rows, p.cols, RowLadder + i);
    ColLadderCounts(p.cols, ColLadder + i);
  }

  /** The coefficient slots bracket every coefficient of the matrix, and the
      all-integral flag is 1 exactly when intVal accepts every coefficient. */
  lemma CoefficientSlots(p: Instance)
    requires Computable(p)
    ensures forall x | x in AllCoefs(p.rows) :: SlotValue(p, AMin) <= x <= SlotValue(p, AMax)
    ensures SlotValue(p, AAllInt) == 1.0 <==> forall x | x in AllCoefs(p.rows) :: IntVal(x)
    ensures SlotValue(p, AAllInt) == 0.0 || SlotValue(p, AAllInt) == 1.0
    ensures SlotValue(p, AMin) <= SlotValue(p, AAvg) <= SlotValue(p, AMax)
  {
    var s := AllCoefs(p.rows);
    MinOfIsLeast(s);
    MaxOfIsGreatest(s);
    assert forall x | x in s :: exists i | 0 <= i < |s| :: s[i] == x;
  }

  /** Because of how intVal rounds, a matrix with a non-negative integer
      coefficient (0, 1, 2, ...) is reported as NOT all-integral. */
  lemma NonNegativeIntegerCoefficientClearsAllInt(p: Instance, x: int)
    requires Computable(p) && x >= 0 && x as real in AllCoefs(p.rows)
    ensures SlotValue(p, AAllInt) == 0.0
  {
    NonNegativeIntegerIsNotIntVal(x);
    CoefficientSlots(p);
  }

  /** The sign counts of the example flow row's coefficients. */
  lemma FlowExampleSigns(c: seq<Double>)
    requires c == [1.0, 1.0, -1.0, -1.0]
    ensures CountNegative(c) == 2 && CountPositive(c) == 2
  {
    var c1: seq<Double> := [1.0];
    var c2 := c1 + [1.0];
    var c3 := c2 + [-1.0];
    assert c1[..0] == [];
    assert c2[..1] == c1 && c3[..2] == c2 && c[..3] == c3;
    assert CountNegative(c1) == 0 && CountPositive(c1) == 1;
    assert CountNegative(c2) == 0 && CountPositive(c2) == 2;
    assert CountNegative(c3) == 1 && CountPositive(c3) == 2;
  }

  /** The coefficients and the binary tally of the example flow row. */
  lemma FlowExampleEntries(es: seq<Entry>, cols: seq<Column>)
    requires es == [Entry(0, 1.0), Entry(1, 1.0), Entry(2, -1.0), Entry(3, -1.0)]
    requires cols == [Column(Binary, 0.0, 1), Column(Binary, 0.0, 1), Column(Binary, 0.0, 1), Column(Binary, 0.0, 1)]
    ensures EntriesFit(es, cols)
    ensures Coefs(es) == [1.0, 1.0, -1.0, -1.0] && CountType(es, cols, Binary) == 4
  {
    AllBinaryIff(es, cols);
    var c := Coefs(es);
    assert c[0] == 1.0 && c[1] == 1.0 && c[2] == -1.0 && c[3] == -1.0;
  }

  /** The flow percentages ignore the flow counters: a problem whose single
      row is a binary flow row has one binary flow row but a binary flow
      percentage of 0. */
  lemma FlowPercentageIgnoresFlowRows()
    ensures var col := Column(Binary, 0.0, 1);
            var row := Row([Entry(0, 1.0), Entry(1, 1.0), Entry(2, -1.0), Entry(3, -1.0)], 'E', 0.0);
            var p := Instance([row], [col, col, col, col]);
            Computable(p) && SlotValue(p, RowsFlowBin) == 1.0 && SlotValue(p, PercRowsFlowBin) == 0.0
  {
    var col := Column(Binary, 0.0, 1);
    var cols := [col, col, col, col];
    var row := Row([Entry(0, 1.0), Entry(1, 1.0), Entry(2, -1.0), Entry(3, -1.0)], 'E', 0.0);
    FlowExampleEntries(row.entries, cols);
    FlowExampleSigns(Coefs(row.entries));
    assert Bumps(Facts(row, cols), RowsFlowBin);
    assert [row][..0] == [];
  }

  /** The row summary of the coefficients 1 and 2. */
  lemma KnapsackExampleSummary(c: seq<Double>)
    requires c == [1.0, 2.0]
    ensures MinOf(c) == 1.0 && MaxOf(c) == 2.0 && CountNegative(c) == 0 && CountPositive(c) == 2
  {
    var c1: seq<Double> := [1.0];
    assert c1[..0] == [] && c[..1] == c1;
    assert MinOf(c1) == 1.0 && MaxOf(c1) == 1.0 && CountNegative(c1) == 0 && CountPositive(c1) == 1;
  }

  /** The equality and knapsack percentages stay 0 whatever the counters
      say: a problem whose single row is a knapsack equality row has one
      equality row and one knapsack row, but both percentages are 0. */
  lemma UnwrittenPercentages()
    ensures var col := Column(Binary, 0.0, 1);
            var row := Row([Entry(0, 1.0), Entry(1, 2.0)], 'E', 2.0);
            var p := Instance([row], [col, col]);
            && Computable(p)
            && SlotValue(p, Equalities) == 1.0 && SlotValue(p, PercEqualities) == 0.0
            && SlotValue(p, RowsKnapsack) == 1.0 && SlotValue(p, PercRowsKnapsack) == 0.0
  {
    var col := Column(Binary, 0.0, 1);
    var cols := [col, col];
    var row := Row([Entry(0, 1.0), Entry(1, 2.0)], 'E', 2.0);
    var c := Coefs(row.entries);
    assert c == [1.0, 2.0] by {
      assert c[0] == 1.0 && c[1] == 2.0;
    }
    AllBinaryIff(row.entries, cols);
    KnapsackExampleSummary(c);
    var f := Facts(row, cols);
    assert f == RowFacts(2, 2, 0, 0, 1.0, 2.0, 0, 2, false, 'E', 2.0);
    assert Bumps(f, Equalities) && Bumps(f, RowsKnapsack);
    assert [row][..0] == [];
  }
}
