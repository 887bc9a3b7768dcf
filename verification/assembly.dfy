/** OsiFeatures::compute from start to end: zero the vector, the basic
    sizes, the row pass, the row percentages, the column pass, the column
    percentages, the summary outputs and the ladder percentages. Every slot
    is zero until the step that writes it, and holds its slot value from
    then on. */
module Assembly {
  import opened Numerics
  import opened Stats
  import opened Problem
  import opened Slots
  import opened Totals
  import opened FeatureValues
  import opened Features

  /** The step of compute that writes slot k: 1 zeroing and basic sizes
      (the two slots that are never written keep their 0), 2 row pass,
      3 row percentages, 4 column pass, 5 column percentages, 6 summary
      outputs, 7 ladder percentages. */
  function StepOf(k: nat): (s: nat)
    ensures 1 <= s <= 7
  {
    if k < RowsSingleton || PercEqualities <= k then 1
    else if k < ColsBin then 2
    else if k < PercRowsPartitioning then 4
    else if k < PercInteger then 3
    else if k < PercRowLadder then 5
    else if k < AMin then 7
    else 6
  }

  /** Slot k once the first `step` steps are done. */
  function Stage(p: Instance, k: nat, step: nat): real
    requires Computable(p)
  {
    if StepOf(k) <= step then SlotValue(p, k) else 0.0
  }

  /** The vector holds exactly the slots of the first `step` steps. */
  ghost predicate At(features: array<real>, p: Instance, step: nat)
    requires Computable(p)
    reads features
  {
    features.Length == FeatureCount && forall k | 0 <= k < FeatureCount :: features[k] == Stage(p, k, step)
  }

  /** The fifteen row-class percentages, each the counter it names divided
      by the number of rows, in three groups of five consecutive slots
      (PercentageOf names the counter); the two flow percentages divide
      their own slots. */
  method RowPercentages(features: array<real>, nRows: nat)
    requires features.Length == FeatureCount && nRows > 0
    modifies features
    ensures forall k | 0 <= k < features.Length ::
              features[k] == if PercRowsPartitioning <= k <= PercRowsFlowMx
                             then PercentOf(old(features[PercentageOf(k)]), nRows)
                             else old(features[k])
  {
    SetPartitioningPercentages(features, nRows);
    SmallRowPercentages(features, nRows);
    OtherRowPercentages(features, nRows);
  }

  // SetPartitioningPercentages, SmallRowPercentages and OtherRowPercentages
  // split one run of assignments (OsiFeatures.cpp lines 493-507) in three.
  method SetPartitioningPercentages(features: array<real>, nRows: nat)
    requires features.Length == FeatureCount && nRows > 0
    modifies features
    ensures forall k | 0 <= k < features.Length ::
              features[k] == if PercRowsPartitioning <= k <= PercRowsIntegerKnapsack
                             then PercentOf(old(features[PercentageOf(k)]), nRows)
                             else old(features[k])
  {
    features[PercRowsPartitioning] := PercentOf(features[RowsPartitioning], nRows);
    features[PercRowsPacking] := PercentOf(features[RowsPacking], nRows);
    features[PercRowsCovering] := PercentOf(features[RowsCovering], nRows);
    features[PercRowsCardinality] := PercentOf(features[RowsCardinality], nRows);
    features[PercRowsIntegerKnapsack] := PercentOf(features[RowsIntegerKnapsack], nRows);
  }

  method SmallRowPercentages(features: array<real>, nRows: nat)
    requires features.Length == FeatureCount && nRows > 0
    modifies features
    ensures forall k | 0 <= k < features.Length ::
              features[k] == if PercRowsInvKnapsack <= k <= PercRowsVarBnd
                             then PercentOf(old(features[PercentageOf(k)]), nRows)
                             else old(features[k])
  {
    features[PercRowsInvKnapsack] := PercentOf(features[RowsInvKnapsack], nRows);
    features[PercRowsSingleton] := PercentOf(features[RowsSingleton], nRows);
    features[PercRowsAggr] := PercentOf(features[RowsAggr], nRows);
    features[PercRowsPrec] := PercentOf(features[RowsPrec], nRows);
    features[PercRowsVarBnd] := PercentOf(features[RowsVarBnd], nRows);
  }

  method OtherRowPercentages(features: array<real>, nRows: nat)
    requires features.Length == FeatureCount && nRows > 0
    modifies features
    ensures forall k | 0 <= k < features.Length ::
              features[k] == if PercRowsBinPacking <= k <= PercRowsFlowMx
                             then PercentOf(old(features[PercentageOf(k)]), nRows)
                             else old(features[k])
  {
    features[PercRowsBinPacking] := PercentOf(features[RowsBinPacking], nRows);
    features[PercRowsMixedBin] := PercentOf(features[RowsMixedBin], nRows);
    features[PercRowsGenInt] := PercentOf(features[RowsGenInt], nRows);
    features[PercRowsFlowBin] := PercentOf(features[PercRowsFlowBin], nRows);
    features[PercRowsFlowMx] := PercentOf(features[PercRowsFlowMx], nRows);
  }

  /** Min, max, average, ratio, all-integral flag and integral percentage
      of a finished summary, written from slot base on; base + 3, the
      standard deviation, is left as it is. */
  method CopySummary(features: array<real>, base: nat, s: Summary)
    requires base + 7 <= features.Length && s.Finished()
    modifies features
    ensures forall k | 0 <= k < features.Length ::
              features[k] == if base <= k < base + 7 && k != base + 3
                             then SummaryOutput(s.values, k - base)
                             else old(features[k])
  {
    features[base] := s.minV;
    features[base + 1] := s.maxV;
    features[base + 2] := s.avg;
    features[base + 4] := s.ratioLSA;
    features[base + 5] := s.allIntEl as real;
    features[base + 6] := s.percIntEl;
  }

  /** The percentages of a ladder: slot pbase + i is slot base + i divided
      by the total, for the twenty slots of the ladder, five at a time. */
  method LadderPercentages(features: array<real>, base: nat, pbase: nat, total: nat)
    requires base + LadderSize <= pbase && pbase + LadderSize <= features.Length && total > 0
    modifies features
    ensures forall k | 0 <= k < features.Length ::
              features[k] == if pbase <= k < pbase + LadderSize
                             then PercentOf(old(features[k - pbase + base]), total)
                             else old(features[k])
  {
    LadderPercentageGroup(features, base, pbase, 0, total);
    LadderPercentageGroup(features, base, pbase, 5, total);
    LadderPercentageGroup(features, base, pbase, 10, total);
    LadderPercentageGroup(features, base, pbase, 15, total);
  }

  // One group of five of a run of assignments (OsiFeatures.cpp lines
  // 638-658 for rows, 661-681 for columns); the grouping is the model's own.
  method LadderPercentageGroup(features: array<real>, base: nat, pbase: nat, first: nat, total: nat)
    requires base + LadderSize <= pbase && pbase + LadderSize <= features.Length && total > 0
    requires first + 5 <= LadderSize
    modifies features
    ensures forall k | 0 <= k < features.Length ::
              features[k] == if pbase + first <= k < pbase + first + 5
                             then PercentOf(old(features[k - pbase + base]), total)
                             else old(features[k])
  {
    features[pbase + first] := PercentOf(features[base + first], total);
    features[pbase + first + 1] := PercentOf(features[base + first + 1], total);
    features[pbase + first + 2] := PercentOf(features[base + first + 2], total);
    features[pbase + first + 3] := PercentOf(features[base + first + 3], total);
    features[pbase + first + 4] := PercentOf(features[base + first + 4], total);
  }

  /** Zero the vector, then write the basic sizes. */
  method BasicStep(features: array<real>, p: Instance)
    requires Computable(p) && features.Length == FeatureCount
    modifies features
    ensures At(features, p, 1)
  {
    ZeroFeatures(features);
    var nR := |p.rows| as real;
    var nC := |p.cols| as real;
    var nz := NumElements(p.rows) as real;
    features[Cols] := nC;
    features[Rows] := nR;
    features[ColsPerRow] := nC / nR;
    features[Nz] := nz;
    ProductSign(nC, nR);
    features[Density] := (nz / (nC * nR)) * 100.0;
    BasicAt(features, p);
  }

  /** A zeroed vector holding the five basic sizes is the vector after the
      first step. */
  lemma BasicAt(features: array<real>, p: Instance)
    requires Computable(p) && features.Length == FeatureCount
    requires
      var nR, nC, nz := |p.rows| as real, |p.cols| as real, NumElements(p.rows) as real;
      && features[Cols] == nC && features[Rows] == nR && features[ColsPerRow] == nC / nR
      && features[Nz] == nz && features[Density] == (nz / (nC * nR)) * 100.0
    requires forall k | RowsSingleton <= k < FeatureCount :: features[k] == 0.0
    ensures At(features, p, 1)
  {
    forall k | 0 <= k < FeatureCount ensures features[k] == Stage(p, k, 1) {
      BasicStage(p, k);
    }
  }

  /** Every slot of the vector set to 0. */
  method ZeroFeatures(features: array<real>)
    modifies features
    ensures forall k | 0 <= k < features.Length :: features[k] == 0.0
  {
    var i := 0;
    while i < features.Length
      invariant 0 <= i <= features.Length
      invariant forall k | 0 <= k < i :: features[k] == 0.0
    {
      features[i] := 0.0;
      i := i + 1;
    }
  }

  /** What the basic sizes write: slots 0..4, every other slot still 0. */
  lemma BasicStage(p: Instance, k: nat)
    requires Computable(p)
    ensures Stage(p, k, 1) ==
      var nR, nC, nz := |p.rows| as real, |p.cols| as real, NumElements(p.rows) as real;
      if k == Cols then nC
      else if k == Rows then nR
      else if k == ColsPerRow then nC / nR
      else if k == Nz then nz
      else if k == Density then (nz / (nC * nR)) * 100.0
      else 0.0
  {
    if k < RowsSingleton {
      assert k == Cols || k == Rows || k == ColsPerRow || k == Nz || k == Density;
    } else if k < PercEqualities {
      assert StepOf(k) > 1;
    }
  }

  /** What the row pass adds to the vector. */
  lemma RowPassStage(p: Instance, k: nat)
    requires Computable(p)
    ensures Stage(p, k, 2) == Stage(p, k, 1) + RowSlotTotal(p.rows, p.cols, k)
  {
  }

  /** What the row percentages write: a counter of the row pass divided by
      the number of rows, or for the flow percentages their own zero slot. */
  lemma RowPercentStage(p: Instance, k: nat)
    requires Computable(p)
    ensures Stage(p, k, 3) == if PercRowsPartitioning <= k <= PercRowsFlowMx
                              then PercentOf(Stage(p, PercentageOf(k), 2), |p.rows|)
                              else Stage(p, k, 2)
  {
  }

  /** What the column pass adds to the vector. */
  lemma ColumnPassStage(p: Instance, k: nat)
    requires Computable(p)
    ensures Stage(p, k, 4) == Stage(p, k, 3) + ColSlotTotal(p.cols, k)
  {
  }

  /** What the integer and binary percentages write. */
  lemma ColumnPercentStage(p: Instance, k: nat)
    requires Computable(p)
    ensures Stage(p, k, 5) == if k == PercInteger then PercentOf(Stage(p, ColsInteger, 4), |p.cols|)
                              else if k == PercBin then PercentOf(Stage(p, ColsBin, 4), |p.cols|)
                              else Stage(p, k, 4)
  {
  }

  /** What the ladder percentages write: a slot of a ladder divided by the
      number of rows or columns. */
  lemma LadderPercentStage(p: Instance, k: nat)
    requires Computable(p)
    ensures Stage(p, k, 7) == if PercRowLadder <= k < PercColLadder
                              then PercentOf(Stage(p, k - PercRowLadder + RowLadder, 6), |p.rows|)
                              else if PercColLadder <= k < AMin
                              then PercentOf(Stage(p, k - PercColLadder + ColLadder, 6), |p.cols|)
                              else Stage(p, k, 6)
  {
  }

  /** What the summary outputs write. */
  lemma SummaryStage(p: Instance, k: nat)
    requires Computable(p)
    ensures Stage(p, k, 6) == if AMin <= k < AMin + 7 && k != AStdDev then SummaryOutput(AllCoefs(p.rows), k - AMin)
                              else if ObjMin <= k < ObjMin + 7 && k != ObjStdDev then SummaryOutput(ObjValues(p.cols), k - ObjMin)
                              else if RhsMin <= k < RhsMin + 7 && k != RhsStdDev then SummaryOutput(RhsValues(p.rows), k - RhsMin)
                              else if RowNzMin <= k < RowNzStdDev then SummaryOutput(RowLengths(p.rows), k - RowNzMin)
                              else if ColNzMin <= k < ColNzAvg then SummaryOutput(ColLengths(p.cols), k - ColNzMin)
                              else if k == ColNzAvg then 0.0
                              else Stage(p, k, 5)
  {
  }

  /** The row pass with fresh summaries. */
  method RowPassStep(features: array<real>, p: Instance)
      returns (aSumm: Summary, rhsSumm: Summary, rowNzSumm: Summary)
    requires Computable(p) && At(features, p, 1)
    modifies features
    ensures At(features, p, 2)
    ensures fresh(aSumm) && fresh(rhsSumm) && fresh(rowNzSumm)
    ensures aSumm != rhsSumm && aSumm != rowNzSumm && rhsSumm != rowNzSumm
    ensures aSumm.Valid() && aSumm.values == AllCoefs(p.rows)
    ensures rhsSumm.Valid() && rhsSumm.values == RhsValues(p.rows)
    ensures rowNzSumm.Valid() && rowNzSumm.values == RowLengths(p.rows)
  {
    aSumm := new Summary();
    rhsSumm := new Summary();
    rowNzSumm := new Summary();
    RowPass(features, p.rows, p.cols, aSumm, rhsSumm, rowNzSumm);
    forall k | 0 <= k < FeatureCount ensures features[k] == Stage(p, k, 2) {
      RowPassStage(p, k);
    }
  }

  /** The row pass and the row percentages; the three row summaries come
      out finished. */
  method RowStepAndPercentages(features: array<real>, p: Instance)
      returns (aSumm: Summary, rhsSumm: Summary, rowNzSumm: Summary)
    requires Computable(p) && At(features, p, 1)
    modifies features
    ensures At(features, p, 3)
    ensures aSumm.Finished() && aSumm.values == AllCoefs(p.rows)
    ensures rhsSumm.Finished() && rhsSumm.values == RhsValues(p.rows)
    ensures rowNzSumm.Finished() && rowNzSumm.values == RowLengths(p.rows)
  {
    aSumm, rhsSumm, rowNzSumm := RowPassStep(features, p);
    RowPercentages(features, |p.rows|);
    forall k | 0 <= k < FeatureCount ensures features[k] == Stage(p, k, 3) {
      RowPercentStage(p, k);
    }
    FinishRowSummaries(aSumm, rhsSumm, rowNzSumm);
  }

  /** aSumm.finish(), rhsSumm.finish(), rowNzSumm.finish(). */
  method FinishRowSummaries(aSumm: Summary, rhsSumm: Summary, rowNzSumm: Summary)
    requires aSumm != rhsSumm && aSumm != rowNzSumm && rhsSumm != rowNzSumm
    requires aSumm.Valid() && rhsSumm.Valid() && rowNzSumm.Valid()
    requires aSumm.nEl > 0 && rhsSumm.nEl > 0 && rowNzSumm.nEl > 0
    modifies aSumm, rhsSumm, rowNzSumm
    ensures aSumm.Finished() && aSumm.values == old(aSumm.values)
    ensures rhsSumm.Finished() && rhsSumm.values == old(rhsSumm.values)
    ensures rowNzSumm.Finished() && rowNzSumm.values == old(rowNzSumm.values)
  {
    aSumm.Finish();
    rhsSumm.Finish();
    rowNzSumm.Finish();
  }

  /** The column pass, then the integer and binary percentages; the
      objective summary comes out finished, the column-length summary is
      never finished. */
  method ColumnStepAndPercentages(features: array<real>, p: Instance)
      returns (objSumm: Summary, colNzSumm: Summary)
    requires Computable(p) && At(features, p, 3)
    modifies features
    ensures At(features, p, 5)
    ensures objSumm.Finished() && objSumm.values == ObjValues(p.cols)
    ensures colNzSumm.Valid() && colNzSumm.values == ColLengths(p.cols) && colNzSumm.avg == 0.0
  {
    objSumm := new Summary();
    colNzSumm := new Summary();
    ColumnPass(features, p.cols, objSumm, colNzSumm);
    forall k | 0 <= k < FeatureCount ensures features[k] == Stage(p, k, 4) {
      ColumnPassStage(p, k);
    }
    objSumm.Finish();
    ColumnPercentages(features, |p.cols|);
    forall k | 0 <= k < FeatureCount ensures features[k] == Stage(p, k, 5) {
      ColumnPercentStage(p, k);
    }
  }

  /** The integer and binary percentages: each column counter over the
      number of columns, and nothing else changes. */
  method ColumnPercentages(features: array<real>, nCols: nat)
    requires features.Length == FeatureCount && nCols > 0
    modifies features
    ensures forall k | 0 <= k < features.Length ::
              features[k] == if k == PercInteger then PercentOf(old(features[ColsInteger]), nCols)
                             else if k == PercBin then PercentOf(old(features[ColsBin]), nCols)
                             else old(features[k])
  {
    features[PercInteger] := PercentOf(features[ColsInteger], nCols);
    features[PercBin] := PercentOf(features[ColsBin], nCols);
  }

  /** The outputs of the coefficient, objective and rhs summaries. */
  method CopyValueSummaries(features: array<real>, aSumm: Summary, objSumm: Summary, rhsSumm: Summary)
    requires features.Length == FeatureCount && aSumm.Finished() && objSumm.Finished() && rhsSumm.Finished()
    modifies features
    ensures forall k | 0 <= k < features.Length ::
              features[k] == if AMin <= k < AMin + 7 && k != AStdDev then SummaryOutput(aSumm.values, k - AMin)
                             else if ObjMin <= k < ObjMin + 7 && k != ObjStdDev then SummaryOutput(objSumm.values, k - ObjMin)
                             else if RhsMin <= k < RhsMin + 7 && k != RhsStdDev then SummaryOutput(rhsSumm.values, k - RhsMin)
                             else old(features[k])
  {
    CopySummary(features, AMin, aSumm);
    CopySummary(features, ObjMin, objSumm);
    CopySummary(features, RhsMin, rhsSumm);
  }

  /** The row and column degree outputs: min, max and average of each; the
      column-length summary is never finished, so its average is the
      constructor's. */
  method CopyDegreeSummaries(features: array<real>, rowNzSumm: Summary, colNzSumm: Summary)
    requires features.Length == FeatureCount && rowNzSumm.Finished()
    requires colNzSumm.Valid() && |colNzSumm.values| > 0
    modifies features
    ensures forall k | 0 <= k < features.Length ::
              features[k] == if RowNzMin <= k < RowNzStdDev then SummaryOutput(rowNzSumm.values, k - RowNzMin)
                             else if ColNzMin <= k < ColNzAvg then SummaryOutput(colNzSumm.values, k - ColNzMin)
                             else if k == ColNzAvg then colNzSumm.avg
                             else old(features[k])
  {
    features[RowNzMin] := rowNzSumm.minV;
    features[RowNzMax] := rowNzSumm.maxV;
    features[RowNzAvg] := rowNzSumm.avg;
    features[ColNzMin] := colNzSumm.minV;
    features[ColNzMax] := colNzSumm.maxV;
    features[ColNzAvg] := colNzSumm.avg;
  }

  /** The summary outputs. */
  method SummaryStep(features: array<real>, p: Instance,
                     aSumm: Summary, objSumm: Summary, rhsSumm: Summary, rowNzSumm: Summary, colNzSumm: Summary)
    requires Computable(p) && At(features, p, 5)
    requires aSumm.Finished() && aSumm.values == AllCoefs(p.rows)
    requires objSumm.Finished() && objSumm.values == ObjValues(p.cols)
    requires rhsSumm.Finished() && rhsSumm.values == RhsValues(p.rows)
    requires rowNzSumm.Finished() && rowNzSumm.values == RowLengths(p.rows)
    requires colNzSumm.Valid() && colNzSumm.values == ColLengths(p.cols) && colNzSumm.avg == 0.0
    modifies features
    ensures At(features, p, 6)
  {
    CopyValueSummaries(features, aSumm, objSumm, rhsSumm);
    CopyDegreeSummaries(features, rowNzSumm, colNzSumm);
    forall k | 0 <= k < FeatureCount ensures features[k] == Stage(p, k, 6) {
      SummaryStage(p, k);
    }
  }

  /** The percentages of the row ladder and of the column ladder. */
  method LadderStep(features: array<real>, p: Instance)
    requires Computable(p) && At(features, p, 6)
    modifies features
    ensures At(features, p, 7)
  {
    LadderPercentages(features, RowLadder, PercRowLadder, |p.rows|);
    LadderPercentages(features, ColLadder, PercColLadder, |p.cols|);
    forall k | 0 <= k < FeatureCount ensures features[k] == Stage(p, k, 7) {
      LadderPercentStage(p, k);
    }
  }

  /** OsiFeatures::compute: every slot of the vector ends up holding its
      slot value. */
  method Compute(features: array<real>, p: Instance)
    requires Computable(p) && features.Length == FeatureCount
    modifies features
    ensures forall k | 0 <= k < features.Length :: features[k] == SlotValue(p, k)
  {
    BasicStep(features, p);
    var aSumm, rhsSumm, rowNzSumm := RowStepAndPercentages(features, p);
    var objSumm, colNzSumm := ColumnStepAndPercentages(features, p);
    SummaryStep(features, p, aSumm, objSumm, rhsSumm, rowNzSumm, colNzSumm);
    LadderStep(features, p);
  }
}
