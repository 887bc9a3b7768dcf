/** The per-row structural classifier of OsiFeatures::compute. Each row is
    reduced to the facts the classifier reads (its length, how many of its
    variables are binary / general integer / continuous, and the row
    summary's min, max and sign counters); each archetype is then an
    independent predicate over those facts, and Bumps says which feature
    slots one row increments. The checks are not exclusive: a row may bump
    several counters. */
module RowClass {
  import opened Numerics
  import opened Stats
  import opened Problem
  import opened Slots

  /** What the classifier knows about one row. intCoefs is the row
      summary's allIntEl read as a bool. */
  datatype RowFacts = RowFacts(
    nz: nat, nBin: nat, nInt: nat, nCont: nat,
    minV: real, maxV: real, nNeg: nat, nPos: nat,
    intCoefs: bool, sense: char, rhs: real)

  /** How many nonzeros of the row sit in a column of type t. */
  function CountType(es: seq<Entry>, cols: seq<Column>, t: VarType): (n: nat)
    requires EntriesFit(es, cols)
    ensures n <= |es|
  {
    if es == [] then 0
    else CountType(es[..|es| - 1], cols, t) + (if cols[es[|es| - 1].col].varType == t then 1 else 0)
  }

  /** The facts of a row: the tallies nBinRow / nIntRow / nContRow and the
      fields of summRow after all the row's coefficients were added. The
      row summary is never finished, so its allIntEl keeps the
      constructor's 0 and intCoefs is false. */
  function Facts(r: Row, cols: seq<Column>): (f: RowFacts)
    requires RowFits(r, cols)
    ensures f.nz == |r.entries| && f.nBin + f.nInt + f.nCont == f.nz
    ensures f.nNeg + f.nPos <= f.nz
    ensures f.sense == r.sense && f.rhs == r.rhs && !f.intCoefs
  {
    var c := Coefs(r.entries);
    TypeTalliesCoverRow(r.entries, cols);
    SignCountsBounded(c);
    RowFacts(
      |r.entries|,
      CountType(r.entries, cols, Binary),
      CountType(r.entries, cols, GeneralInteger),
      CountType(r.entries, cols, Continuous),
      MinOf(c), MaxOf(c), CountNegative(c), CountPositive(c),
      false, r.sense, r.rhs)
  }

  /** rowBin: every variable of the row is binary. */
  predicate AllBinary(f: RowFacts) { f.nBin == f.nz }

  /** Every coefficient equals 1 within the tolerance. */
  predicate OnlyOnes(f: RowFacts) { DblEqual(f.minV, 1.0) && DblEqual(f.maxV, 1.0) }

  predicate IsSingleton(f: RowFacts) { f.nz == 1 }

  predicate IsAggregation(f: RowFacts) { f.nz == 2 && f.sense == 'E' }

  predicate IsVarBound(f: RowFacts) { f.nz == 2 && f.nBin == 1 }

  predicate IsPrecedence(f: RowFacts) {
    && f.nz == 2 && f.nBin % 2 == 0 && f.nCont % 2 == 0
    && f.nNeg == 1 && f.nPos == 1 && DblEqual(f.minV, f.maxV)
  }

  predicate IsPartitioning(f: RowFacts) {
    AllBinary(f) && OnlyOnes(f) && DblEqual(f.rhs, 1.0) && f.sense == 'E'
  }

  predicate IsCovering(f: RowFacts) {
    AllBinary(f) && OnlyOnes(f) && DblEqual(f.rhs, 1.0) && f.sense == 'G'
  }

  predicate IsPacking(f: RowFacts) {
    AllBinary(f) && OnlyOnes(f) && DblEqual(f.rhs, 1.0) && f.sense == 'L'
  }

  predicate IsCardinality(f: RowFacts) {
    AllBinary(f) && OnlyOnes(f) && !DblEqual(f.rhs, 1.0) && f.rhs >= 1.99 && f.sense == 'E'
  }

  predicate IsInvKnapsack(f: RowFacts) {
    AllBinary(f) && OnlyOnes(f) && !DblEqual(f.rhs, 1.0) && f.rhs >= 1.99 && f.sense == 'L'
  }

  predicate IsKnapsack(f: RowFacts) {
    AllBinary(f) && !OnlyOnes(f) && f.rhs >= 1.1 && f.maxV - f.minV >= 0.1 && f.nNeg == 0
  }

  predicate IsIntegerKnapsack(f: RowFacts) { IsKnapsack(f) && f.intCoefs }

  predicate IsBinPacking(f: RowFacts) {
    AllBinary(f) && !OnlyOnes(f) && f.rhs >= 1.1 && f.nNeg == 1 && f.nz >= 2
  }

  predicate IsFlowBinary(f: RowFacts) {
    AllBinary(f) && f.nNeg >= 2 && f.nPos >= 2 && f.sense == 'E'
  }

  predicate IsFlowMixed(f: RowFacts) {
    !AllBinary(f) && f.nNeg >= 2 && f.nPos >= 2 && f.sense == 'E'
  }

  predicate IsMixedBinary(f: RowFacts) { !AllBinary(f) && f.nCont > 0 }

  predicate IsGeneralInteger(f: RowFacts) { !AllBinary(f) && f.nInt != 0 }

  predicate IsEquality(f: RowFacts) { f.sense == 'E' }

  /** Whether a row with facts f increments feature slot k during the row
      pass. Only the class counters and the row ladder are ever bumped. */
  function Bumps(f: RowFacts, k: nat): (b: bool)
    ensures b ==> RowsSingleton <= k < RowLadder + LadderSize
  {
    if k == RowsSingleton then IsSingleton(f)
    else if k == RowsAggr then IsAggregation(f)
    else if k == RowsVarBnd then IsVarBound(f)
    else if k == RowsPrec then IsPrecedence(f)
    else if k == RowsPartitioning then IsPartitioning(f)
    else if k == RowsCovering then IsCovering(f)
    else if k == RowsPacking then IsPacking(f)
    else if k == RowsCardinality then IsCardinality(f)
    else if k == RowsInvKnapsack then IsInvKnapsack(f)
    else if k == RowsKnapsack then IsKnapsack(f)
    else if k == RowsIntegerKnapsack then IsIntegerKnapsack(f)
    else if k == RowsBinPacking then IsBinPacking(f)
    else if k == RowsFlowBin then IsFlowBinary(f)
    else if k == RowsFlowMx then IsFlowMixed(f)
    else if k == RowsMixedBin then IsMixedBinary(f)
    else if k == RowsGenInt then IsGeneralInteger(f)
    else if k == Equalities then IsEquality(f)
    else if k == Inequalities then !IsEquality(f)
    else InLadder(f.nz, RowLadder, k)
  }

  /** Within the row ladder, a row bumps a slot exactly when its length
      passes the slot's threshold. */
  lemma LadderBumps(f: RowFacts, k: nat)
    requires RowLadder <= k < RowLadder + LadderSize
    ensures Bumps(f, k) <==> InLadder(f.nz, RowLadder, k)
  {
  }

  /** A row bumping an "at most" slot bumps the next one too, and a row
      bumping an "at least" slot bumps the previous one too. */
  lemma LadderBumpsNested(f: RowFacts, k: nat)
    requires RowLadder <= k < RowLadder + LadderSize - 1 && k != RowLadder + AtMostCount - 1
    ensures k < RowLadder + AtMostCount ==> (Bumps(f, k) ==> Bumps(f, k + 1))
    ensures k >= RowLadder + AtMostCount ==> (Bumps(f, k + 1) ==> Bumps(f, k))
  {
    LadderBumps(f, k);
    LadderBumps(f, k + 1);
  }

  /** Every nonzero is tallied as exactly one of binary, general integer and
      continuous. */
  lemma {:induction false} TypeTalliesCoverRow(es: seq<Entry>, cols: seq<Column>)
    requires EntriesFit(es, cols)
    ensures CountType(es, cols, Binary) + CountType(es, cols, GeneralInteger)
            + CountType(es, cols, Continuous) == |es|
  {
    if es != [] {
      TypeTalliesCoverRow(es[..|es| - 1], cols);
    }
  }

  /** The row counts as all-binary exactly when every one of its variables is binary. */
  lemma {:induction false} AllBinaryIff(es: seq<Entry>, cols: seq<Column>)
    requires EntriesFit(es, cols)
    ensures CountType(es, cols, Binary) == |es| <==>
            forall i | 0 <= i < |es| :: cols[es[i].col].varType == Binary
  {
    if es != [] {
      var init := es[..|es| - 1];
      AllBinaryIff(init, cols);
      assert forall i | 0 <= i < |init| :: init[i] == es[i];
    }
  }

  /** The running min and max of a sequence both equal 1 within the
      tolerance exactly when it is nonempty and every value does. */
  lemma UnitExtremes(c: seq<Double>)
    ensures DblEqual(MinOf(c), 1.0) && DblEqual(MaxOf(c), 1.0) <==>
            |c| >= 1 && forall i | 0 <= i < |c| :: DblEqual(c[i], 1.0)
  {
    MinOfIsLeast(c);
    MaxOfIsGreatest(c);
    if |c| >= 1 && forall i | 0 <= i < |c| :: DblEqual(c[i], 1.0) {
      assert MinOf(c) <= c[0] && c[0] <= 1.0 + Tol;
      assert MaxOf(c) >= c[0] && c[0] >= 1.0 - Tol;
    }
  }

  /** The "only ones" test on summRow's min and max holds exactly when the
      row has a nonzero and every coefficient is 1 within the tolerance. */
  lemma OnlyOnesIff(r: Row, cols: seq<Column>)
    requires RowFits(r, cols)
    ensures OnlyOnes(Facts(r, cols)) <==>
            |r.entries| >= 1 && forall i | 0 <= i < |r.entries| :: DblEqual(r.entries[i].coef, 1.0)
  {
    var c := Coefs(r.entries);
    UnitExtremes(c);
    assert Facts(r, cols).minV == MinOf(c) && Facts(r, cols).maxV == MaxOf(c);
  }

  /** A row with every variable binary, at least one nonzero and every
      coefficient 1 within the tolerance. */
  predicate UnitBinaryRow(r: Row, cols: seq<Column>)
    requires RowFits(r, cols)
  {
    && |r.entries| >= 1
    && (forall i | 0 <= i < |r.entries| :: cols[r.entries[i].col].varType == Binary)
    && (forall i | 0 <= i < |r.entries| :: DblEqual(r.entries[i].coef, 1.0))
  }

  /** A row bumps at most one of the partitioning, covering and packing
      counters, since each asks for a different sense. */
  lemma SetClassesExclusive(f: RowFacts)
    ensures (if Bumps(f, RowsPartitioning) then 1 else 0) + (if Bumps(f, RowsCovering) then 1 else 0)
            + (if Bumps(f, RowsPacking) then 1 else 0) <= 1
  {
  }

  /** Partitioning, covering and packing are exactly the unit binary rows
      with right-hand side 1, told apart by the sense; so a row is at most
      one of them. */
  lemma SetPartitioningFamily(r: Row, cols: seq<Column>)
    requires RowFits(r, cols)
    ensures IsPartitioning(Facts(r, cols)) <==>
            UnitBinaryRow(r, cols) && DblEqual(r.rhs, 1.0) && r.sense == 'E'
    ensures IsCovering(Facts(r, cols)) <==>
            UnitBinaryRow(r, cols) && DblEqual(r.rhs, 1.0) && r.sense == 'G'
    ensures IsPacking(Facts(r, cols)) <==>
            UnitBinaryRow(r, cols) && DblEqual(r.rhs, 1.0) && r.sense == 'L'
    ensures !(IsPartitioning(Facts(r, cols)) && IsCovering(Facts(r, cols)))
    ensures !(IsPartitioning(Facts(r, cols)) && IsPacking(Facts(r, cols)))
    ensures !(IsCovering(Facts(r, cols)) && IsPacking(Facts(r, cols)))
  {
    AllBinaryIff(r.entries, cols);
    OnlyOnesIff(r, cols);
  }

  /** One coefficient at or below -tol and one at or above +tol put summRow's
      min and max more than the tolerance apart, so dbl_equal(minV, maxV)
      fails and the precedence counter is never incremented. */
  lemma NoPrecedenceRow(r: Row, cols: seq<Column>)
    requires RowFits(r, cols)
    ensures !IsPrecedence(Facts(r, cols))
  {
    var c := Coefs(r.entries);
    if CountNegative(c) == 1 && CountPositive(c) == 1 {
      var i := NegativeWitness(c);
      var j := PositiveWitness(c);
      MinOfIsLeast(c);
      MaxOfIsGreatest(c);
      assert MinOf(c) <= -Tol && MaxOf(c) >= Tol;
    }
  }

  /** The integer-knapsack counter is never incremented. The reason lies in
      Features.ScanAndClassify, which shows that the row summary the
      classifier reads is never finished, so its allIntEl is the
      constructor's 0 and Facts records intCoefs as false; this lemma only
      draws the consequence for the test. */
  lemma NoIntegerKnapsackRow(r: Row, cols: seq<Column>)
    requires RowFits(r, cols)
    ensures !IsIntegerKnapsack(Facts(r, cols))
  {
  }

  /** A knapsack row has only binary variables, no coefficient at or below
      -tol, and at least two nonzeros (one nonzero has no spread of 0.1). */
  lemma KnapsackShape(r: Row, cols: seq<Column>)
    requires RowFits(r, cols) && IsKnapsack(Facts(r, cols))
    ensures |r.entries| >= 2
    ensures forall i | 0 <= i < |r.entries| ::
              cols[r.entries[i].col].varType == Binary && r.entries[i].coef > -Tol
  {
    var c := Coefs(r.entries);
    AllBinaryIff(r.entries, cols);
    NoNegativeMeansAboveTol(c);
    if |c| == 1 {
      SingleValueSpread(c);
    }
  }

  /** One value above -tol has min and max less than 0.1 apart: the max
      sentinel is the tiny DBL_MIN. */
  lemma SingleValueSpread(c: seq<Double>)
    requires |c| == 1 && -Tol < c[0] <= DblMax
    ensures MaxOf(c) - MinOf(c) < 0.1
  {
    assert c[..0] == [];
  }

  /** A bin-packing row has exactly one coefficient at or below -tol. */
  lemma BinPackingShape(r: Row, cols: seq<Column>)
    requires RowFits(r, cols) && IsBinPacking(Facts(r, cols))
    ensures |r.entries| >= 2
    ensures exists i | 0 <= i < |r.entries| :: r.entries[i].coef <= -Tol &&
              forall j | 0 <= j < |r.entries| && j != i :: r.entries[j].coef > -Tol
  {
    var c := Coefs(r.entries);
    var i := SingleNegative(c);
    assert r.entries[i].coef <= -Tol;
  }

  /** A flow row has a coefficient at or below -tol, so it is never a
      row of ones: flow rows never also count as partitioning, covering,
      packing, cardinality or inverse knapsack. */
  lemma FlowRowsAreNotUnitRows(r: Row, cols: seq<Column>)
    requires RowFits(r, cols)
    requires IsFlowBinary(Facts(r, cols)) || IsFlowMixed(Facts(r, cols))
    ensures !OnlyOnes(Facts(r, cols))
  {
    var c := Coefs(r.entries);
    var i := NegativeWitness(c);
    MinOfIsLeast(c);
    assert MinOf(c) <= -Tol;
  }

  /** The checks are not exclusive: a two-nonzero all-ones binary equality
      row with right-hand side 1 counts both as an aggregation and as a
      partitioning row. */
  lemma AggregationAndPartitioningTogether()
    ensures var cols := [Column(Binary, 0.0, 1), Column(Binary, 0.0, 1)];
            var r := Row([Entry(0, 1.0), Entry(1, 1.0)], 'E', 1.0);
            RowFits(r, cols) && Bumps(Facts(r, cols), RowsAggr) && Bumps(Facts(r, cols), RowsPartitioning)
  {
    var cols := [Column(Binary, 0.0, 1), Column(Binary, 0.0, 1)];
    var r := Row([Entry(0, 1.0), Entry(1, 1.0)], 'E', 1.0);
    SetPartitioningFamily(r, cols);
  }
}
