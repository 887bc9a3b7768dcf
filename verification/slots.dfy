/** Layout of the feature vector. OsiFeatures.hpp, which fixes the real enum
    order, is not part of this model: the numbering below is the model's own,
    chosen so that each degree ladder occupies twenty consecutive slots. */
module Slots {
  import opened Numerics

  const Cols: nat := 0
  const Rows: nat := 1
  const ColsPerRow: nat := 2
  const Nz: nat := 3
  const Density: nat := 4

  // Row classification counters.
  const RowsSingleton: nat := 5
  const RowsAggr: nat := 6
  const RowsVarBnd: nat := 7
  const RowsPrec: nat := 8
  const RowsPartitioning: nat := 9
  const RowsCovering: nat := 10
  const RowsPacking: nat := 11
  const RowsCardinality: nat := 12
  const RowsInvKnapsack: nat := 13
  const RowsKnapsack: nat := 14
  const RowsIntegerKnapsack: nat := 15
  const RowsBinPacking: nat := 16
  const RowsFlowBin: nat := 17
  const RowsFlowMx: nat := 18
  const RowsMixedBin: nat := 19
  const RowsGenInt: nat := 20
  const Equalities: nat := 21
  const Inequalities: nat := 22

  /** Row degree ladder: RowLadder + i counts rows with at most
      Thresholds[i] nonzeros (i < 9), RowLadder + 9 + i rows with at least
      Thresholds[i] nonzeros (i < 11). */
  const RowLadder: nat := 23

  // Column type counters.
  const ColsBin: nat := 43
  const ColsGenInt: nat := 44
  const ColsInteger: nat := 45
  const ColsContinuous: nat := 46

  /** Column degree ladder, laid out like the row ladder. */
  const ColLadder: nat := 47

  // Row classification percentages that compute writes; the knapsack
  // percentage is PercRowsKnapsack below, which it never writes.
  const PercRowsPartitioning: nat := 67
  const PercRowsPacking: nat := 68
  const PercRowsCovering: nat := 69
  const PercRowsCardinality: nat := 70
  const PercRowsIntegerKnapsack: nat := 71
  const PercRowsInvKnapsack: nat := 72
  const PercRowsSingleton: nat := 73
  const PercRowsAggr: nat := 74
  const PercRowsPrec: nat := 75
  const PercRowsVarBnd: nat := 76
  const PercRowsBinPacking: nat := 77
  const PercRowsMixedBin: nat := 78
  const PercRowsGenInt: nat := 79
  const PercRowsFlowBin: nat := 80
  const PercRowsFlowMx: nat := 81

  /** The slot each row-class percentage is computed from. For the two
      flow percentages that is the percentage slot itself, not the flow
      counter. */
  function PercentageOf(k: nat): (c: nat)
    requires PercRowsPartitioning <= k <= PercRowsFlowMx
    ensures c == k <==> k == PercRowsFlowBin || k == PercRowsFlowMx
    ensures c != k ==> RowsSingleton <= c < RowLadder && c != RowsFlowBin && c != RowsFlowMx
  {
    if k == PercRowsPartitioning then RowsPartitioning
    else if k == PercRowsPacking then RowsPacking
    else if k == PercRowsCovering then RowsCovering
    else if k == PercRowsCardinality then RowsCardinality
    else if k == PercRowsIntegerKnapsack then RowsIntegerKnapsack
    else if k == PercRowsInvKnapsack then RowsInvKnapsack
    else if k == PercRowsSingleton then RowsSingleton
    else if k == PercRowsAggr then RowsAggr
    else if k == PercRowsPrec then RowsPrec
    else if k == PercRowsVarBnd then RowsVarBnd
    else if k == PercRowsBinPacking then RowsBinPacking
    else if k == PercRowsMixedBin then RowsMixedBin
    else if k == PercRowsGenInt then RowsGenInt
    else k
  }

  const PercInteger: nat := 82
  const PercBin: nat := 83

  /** Percentages of the two ladders, slot by slot in the ladders' order. */
  const PercRowLadder: nat := 84
  const PercColLadder: nat := 104

  // Summary outputs: coefficients, objective, right-hand side, degrees.
  const AMin: nat := 124
  const AMax: nat := 125
  const AAvg: nat := 126
  const AStdDev: nat := 127
  const ARatioLSA: nat := 128
  const AAllInt: nat := 129
  const APercInt: nat := 130
  const ObjMin: nat := 131
  const ObjMax: nat := 132
  const ObjAvg: nat := 133
  const ObjStdDev: nat := 134
  const ObjRatioLSA: nat := 135
  const ObjAllInt: nat := 136
  const ObjPercInt: nat := 137
  const RhsMin: nat := 138
  const RhsMax: nat := 139
  const RhsAvg: nat := 140
  const RhsStdDev: nat := 141
  const RhsRatioLSA: nat := 142
  const RhsAllInt: nat := 143
  const RhsPercInt: nat := 144
  const RowNzMin: nat := 145
  const RowNzMax: nat := 146
  const RowNzAvg: nat := 147
  const RowNzStdDev: nat := 148
  const ColNzMin: nat := 149
  const ColNzMax: nat := 150
  const ColNzAvg: nat := 151
  const ColNzStdDev: nat := 152

  /** Two slots of the vector that compute zeroes and never writes: the
      percentage of equality rows and the percentage of knapsack rows. */
  const PercEqualities: nat := 153
  const PercRowsKnapsack: nat := 154

  /** The length of the vector: one slot per name of the feature-name
      table. */
  const FeatureCount: nat := 155

  /** The powers of two the ladders compare nonzero counts against. */
  const Thresholds: seq<nat> := [4, 8, 16, 32, 64, 128, 256, 512, 1024, 2048, 4096]

  /** The "at most" half of a ladder uses the first nine thresholds (4..1024),
      the "at least" half all eleven (4..4096). */
  const AtMostCount: nat := 9
  const LadderSize: nat := 20

  /** Whether a row or column with nz nonzeros bumps slot k of the ladder
      that starts at base. */
  predicate InLadder(nz: nat, base: nat, k: nat) {
    if base <= k < base + AtMostCount then nz <= Thresholds[k - base]
    else if base + AtMostCount <= k < base + LadderSize then nz >= Thresholds[k - base - AtMostCount]
    else false
  }

  /** (value / total) * 100, as the assembly writes every percentage. */
  function PercentOf(value: real, total: nat): real
    requires total > 0
  {
    (value / total as real) * 100.0
  }

  /** The percentage of a count. */
  function Percent(count: nat, total: nat): (r: real)
    requires total > 0
    ensures 0.0 <= r
    ensures count <= total ==> r <= 100.0
    ensures r == 0.0 <==> count == 0
    ensures r == 100.0 <==> count == total
  {
    QuotientBounds(count as real, total as real);
    PercentOf(count as real, total)
  }

  /** More counted means a larger percentage. */
  lemma PercentMonotone(a: nat, b: nat, total: nat)
    requires total > 0 && a <= b
    ensures Percent(a, total) <= Percent(b, total)
  {
    var t := total as real;
    assert a as real / t == a as real * (1.0 / t);
    assert b as real / t == b as real * (1.0 / t);
    ProductSign(t, 1.0 / t);
    assert a as real / t <= b as real / t;
    assert PercentOf(a as real, total) <= PercentOf(b as real, total);
  }
}
