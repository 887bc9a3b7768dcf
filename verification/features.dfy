/** OsiFeatures::compute: fills the feature vector from the problem, in the
    order the original does it (zero the vector, basic sizes, one pass over
    the rows, the row percentages, one pass over the columns, the column
    percentages, the summary outputs, the ladder percentages). Each step
    is proved against the slot values of FeatureValues. */
module Features {
  import opened Numerics
  import opened Stats
  import opened Problem
  import opened Slots
  import opened RowClass
  import opened Totals
  import opened FeatureValues

  /** The facts the classifier reads from the running tallies and the row
      summary, intCoefs being summRow.allIntEl converted to bool. */
  function SummaryFacts(nzRow: nat, nBinRow: nat, nIntRow: nat, nContRow: nat,
                        summRow: Summary, sense: char, rhs: real): RowFacts
    reads summRow
  {
    RowFacts(nzRow, nBinRow, nIntRow, nContRow, summRow.minV, summRow.maxV,
             summRow.nNegVal, summRow.nPosVal, summRow.allIntEl != 0, sense, rhs)
  }

  /** What the row pass adds to slot k. */
  function RowSlotTotal(rows: seq<Row>, cols: seq<Column>, k: nat): real
    requires RowsFit(rows, cols)
  {
    if RowsSingleton <= k < ColsBin then RowTotal(rows, cols, k) as real else 0.0
  }

  lemma RowSlotTotalAppend(rows: seq<Row>, cols: seq<Column>, n: nat, k: nat)
    requires RowsFit(rows, cols) && n < |rows|
    ensures RowSlotTotal(rows[..n + 1], cols, k)
            == RowSlotTotal(rows[..n], cols, k) + if Bumps(Facts(rows[n], cols), k) then 1.0 else 0.0
  {
    RowTotalAppend(rows, cols, n, k);
  }

  /** The nonzero-count ladder of one row (base RowLadder) or one column
      (base ColLadder): the two nests of comparisons against the thresholds. */
  method TallyLadder(features: array<real>, nz: nat, base: nat)
    requires base + LadderSize <= features.Length
    modifies features
    ensures forall k | 0 <= k < features.Length ::
              features[k] == old(features[k]) + if InLadder(nz, base, k) then 1.0 else 0.0
  {
    TallyAtMost(features, nz, base);
    TallyAtLeast(features, nz, base);
  }

  method TallyAtMost(features: array<real>, nz: nat, base: nat)
    requires base + LadderSize <= features.Length
    modifies features
    ensures forall k | 0 <= k < features.Length ::
              features[k] == old(features[k]) +
                if base <= k < base + AtMostCount && nz <= Thresholds[k - base] then 1.0 else 0.0
  {
    if nz <= 1024 {
      features[base + 8] := features[base + 8] + 1.0;
      if nz <= 512 {
        features[base + 7] := features[base + 7] + 1.0;
        if nz <= 256 {
          features[base + 6] := features[base + 6] + 1.0;
          if nz <= 128 {
            features[base + 5] := features[base + 5] + 1.0;
            if nz <= 64 {
              features[base + 4] := features[base + 4] + 1.0;
              TallyAtMostSmall(features, nz, base);
            }
          }
        }
      }
    }
  }

  /** The inner levels of the "at most" nest, entered with nz <= 64. The
      split is the model's own: in OsiFeatures.cpp this is one nest of ifs
      (lines 430-456 for rows, 536-562 for columns). */
  method TallyAtMostSmall(features: array<real>, nz: nat, base: nat)
    requires base + LadderSize <= features.Length && nz <= 64
    modifies features
    ensures forall k | 0 <= k < features.Length ::
              features[k] == old(features[k]) +
                if base <= k < base + 4 && nz <= Thresholds[k - base] then 1.0 else 0.0
  {
    if nz <= 32 {
      features[base + 3] := features[base + 3] + 1.0;
      if nz <= 16 {
        features[base + 2] := features[base + 2] + 1.0;
        if nz <= 8 {
          features[base + 1] := features[base + 1] + 1.0;
          if nz <= 4 {
            features[base] := features[base] + 1.0;
          }
        }
      }
    }
  }

  method TallyAtLeast(features: array<real>, nz: nat, base: nat)
    requires base + LadderSize <= features.Length
    modifies features
    ensures forall k | 0 <= k < features.Length ::
              features[k] == old(features[k]) +
                if base + AtMostCount <= k < base + LadderSize && nz >= Thresholds[k - base - AtMostCount]
                then 1.0 else 0.0
  {
    if nz >= 4 {
      features[base + 9] := features[base + 9] + 1.0;
      if nz >= 8 {
        features[base + 10] := features[base + 10] + 1.0;
        if nz >= 16 {
          features[base + 11] := features[base + 11] + 1.0;
          if nz >= 32 {
            features[base + 12] := features[base + 12] + 1.0;
            if nz >= 64 {
              features[base + 13] := features[base + 13] + 1.0;
              TallyAtLeastLarge(features, nz, base);
            }
          }
        }
      }
    }
  }

  /** The inner levels of the "at least" nest, entered with nz >= 64. The
      split is the model's own: in OsiFeatures.cpp this is one nest of ifs
      (lines 458-490 for rows, 564-596 for columns). */
  method TallyAtLeastLarge(features: array<real>, nz: nat, base: nat)
    requires base + LadderSize <= features.Length && nz >= 64
    modifies features
    ensures forall k | 0 <= k < features.Length ::
              features[k] == old(features[k]) +
                if base + 14 <= k < base + LadderSize && nz >= Thresholds[k - base - AtMostCount]
                then 1.0 else 0.0
  {
    if nz >= 128 {
      features[base + 14] := features[base + 14] + 1.0;
      if nz >= 256 {
        features[base + 15] := features[base + 15] + 1.0;
        if nz >= 512 {
          features[base + 16] := features[base + 16] + 1.0;
          if nz >= 1024 {
            features[base + 17] := features[base + 17] + 1.0;
            if nz >= 2048 {
              features[base + 18] := features[base + 18] + 1.0;
              if nz >= 4096 {
                features[base + 19] := features[base + 19] + 1.0;
              }
            }
          }
        }
      }
    }
  }

  /** The switch on the row length: singleton rows, and for two nonzeros
      aggregations, variable bounds and precedences. */
  method ClassifyByLength(features: array<real>, nzRow: nat, nBinRow: nat, nIntRow: nat, nContRow: nat,
                          summRow: Summary, sense: char, rhs: real)
    requires features.Length == FeatureCount
    modifies features
    ensures forall k | 0 <= k < features.Length ::
              features[k] == old(features[k]) +
                if RowsSingleton <= k <= RowsPrec
                   && Bumps(SummaryFacts(nzRow, nBinRow, nIntRow, nContRow, summRow, sense, rhs), k)
                then 1.0 else 0.0
  {
    if nzRow == 1 {
      features[RowsSingleton] := features[RowsSingleton] + 1.0;
    } else if nzRow == 2 {
      if sense == 'E' {
        features[RowsAggr] := features[RowsAggr] + 1.0;
      }
      if nBinRow == 1 {
        features[RowsVarBnd] := features[RowsVarBnd] + 1.0;
      }
      if nBinRow % 2 == 0 && nContRow % 2 == 0 {
        if summRow.nNegVal == 1 && summRow.nPosVal == 1 && DblEqual(summRow.minV, summRow.maxV) {
          features[RowsPrec] := features[RowsPrec] + 1.0;
        }
      }
    }
  }

  /** Rows whose coefficients are all 1: partitioning, covering, packing,
      cardinality and inverse knapsack, told apart by rhs and sense. */
  method ClassifyUnitRow(features: array<real>, nzRow: nat, nBinRow: nat, nIntRow: nat, nContRow: nat,
                         summRow: Summary, sense: char, rhs: real)
    requires features.Length == FeatureCount && nBinRow == nzRow
    requires DblEqual(summRow.minV, 1.0) && DblEqual(summRow.maxV, 1.0)
    modifies features
    ensures forall k | 0 <= k < features.Length ::
              features[k] == old(features[k]) +
                if RowsPartitioning <= k <= RowsInvKnapsack
                   && Bumps(SummaryFacts(nzRow, nBinRow, nIntRow, nContRow, summRow, sense, rhs), k)
                then 1.0 else 0.0
  {
    if DblEqual(rhs, 1.0) {
      if sense == 'E' {
        features[RowsPartitioning] := features[RowsPartitioning] + 1.0;
      } else if sense == 'G' {
        features[RowsCovering] := features[RowsCovering] + 1.0;
      } else if sense == 'L' {
        features[RowsPacking] := features[RowsPacking] + 1.0;
      }
    } else {
      if rhs >= 1.99 {
        if sense == 'E' {
          features[RowsCardinality] := features[RowsCardinality] + 1.0;
        } else if sense == 'L' {
          features[RowsInvKnapsack] := features[RowsInvKnapsack] + 1.0;
        }
      }
    }
  }

  /** Binary rows with other coefficients: knapsack, integer knapsack and
      bin packing, all needing rhs >= 1.1. */
  method ClassifyWeightedRow(features: array<real>, nzRow: nat, nBinRow: nat, nIntRow: nat, nContRow: nat,
                             summRow: Summary, sense: char, rhs: real)
    requires features.Length == FeatureCount && nBinRow == nzRow
    requires !(DblEqual(summRow.minV, 1.0) && DblEqual(summRow.maxV, 1.0))
    modifies features
    ensures forall k | 0 <= k < features.Length ::
              features[k] == old(features[k]) +
                if RowsKnapsack <= k <= RowsBinPacking
                   && Bumps(SummaryFacts(nzRow, nBinRow, nIntRow, nContRow, summRow, sense, rhs), k)
                then 1.0 else 0.0
  {
    var intCoefs := summRow.allIntEl != 0;
    var minaRow := summRow.minV;
    var maxaRow := summRow.maxV;
    if rhs >= 1.1 {
      if maxaRow - minaRow >= 0.1 && summRow.nNegVal == 0 {
        features[RowsKnapsack] := features[RowsKnapsack] + 1.0;
        if intCoefs {
          features[RowsIntegerKnapsack] := features[RowsIntegerKnapsack] + 1.0;
        }
      }
      if summRow.nNegVal == 1 && nzRow >= 2 {
        features[RowsBinPacking] := features[RowsBinPacking] + 1.0;
      }
    }
  }

  /** The branch for rows over binary variables only. */
  method ClassifyBinaryRow(features: array<real>, nzRow: nat, nBinRow: nat, nIntRow: nat, nContRow: nat,
                           summRow: Summary, sense: char, rhs: real)
    requires features.Length == FeatureCount && nBinRow == nzRow
    modifies features
    ensures forall k | 0 <= k < features.Length ::
              features[k] == old(features[k]) +
                if RowsPartitioning <= k <= RowsFlowBin
                   && Bumps(SummaryFacts(nzRow, nBinRow, nIntRow, nContRow, summRow, sense, rhs), k)
                then 1.0 else 0.0
  {
    if DblEqual(summRow.minV, 1.0) && DblEqual(summRow.maxV, 1.0) {
      ClassifyUnitRow(features, nzRow, nBinRow, nIntRow, nContRow, summRow, sense, rhs);
    } else {
      ClassifyWeightedRow(features, nzRow, nBinRow, nIntRow, nContRow, summRow, sense, rhs);
    }
    if summRow.nNegVal >= 2 && summRow.nPosVal >= 2 && sense == 'E' {
      features[RowsFlowBin] := features[RowsFlowBin] + 1.0;
    }
  }

  /** The branch for rows with a general integer or continuous variable. */
  method ClassifyMixedRow(features: array<real>, nzRow: nat, nBinRow: nat, nIntRow: nat, nContRow: nat,
                          summRow: Summary, sense: char, rhs: real)
    requires features.Length == FeatureCount && nBinRow != nzRow
    modifies features
    ensures forall k | 0 <= k < features.Length ::
              features[k] == old(features[k]) +
                if RowsFlowMx <= k <= RowsGenInt
                   && Bumps(SummaryFacts(nzRow, nBinRow, nIntRow, nContRow, summRow, sense, rhs), k)
                then 1.0 else 0.0
  {
    if summRow.nNegVal >= 2 && summRow.nPosVal >= 2 && sense == 'E' {
      features[RowsFlowMx] := features[RowsFlowMx] + 1.0;
    }
    if nContRow > 0 {
      features[RowsMixedBin] := features[RowsMixedBin] + 1.0;
    }
    if nIntRow != 0 {
      features[RowsGenInt] := features[RowsGenInt] + 1.0;
    }
  }

  /** Everything the row pass does for one row before its rhs is summarised
      and its length laddered: every class counter the row bumps goes up by
      one. */
  method ClassifyRow(features: array<real>, nzRow: nat, nBinRow: nat, nIntRow: nat, nContRow: nat,
                     summRow: Summary, sense: char, rhs: real)
    requires features.Length == FeatureCount
    modifies features
    ensures forall k | 0 <= k < features.Length ::
              features[k] == old(features[k]) +
                if k < RowLadder
                   && Bumps(SummaryFacts(nzRow, nBinRow, nIntRow, nContRow, summRow, sense, rhs), k)
                then 1.0 else 0.0
  {
    var rowBin := nBinRow == nzRow;
    ClassifyByLength(features, nzRow, nBinRow, nIntRow, nContRow, summRow, sense, rhs);
    if rowBin {
      ClassifyBinaryRow(features, nzRow, nBinRow, nIntRow, nContRow, summRow, sense, rhs);
    } else {
      ClassifyMixedRow(features, nzRow, nBinRow, nIntRow, nContRow, summRow, sense, rhs);
    }
    if sense == 'E' {
      features[Equalities] := features[Equalities] + 1.0;
    } else {
      features[Inequalities] := features[Inequalities] + 1.0;
    }
  }

  /** The two add calls of the inner loop, on the matrix summary and on
      the row summary. */
  method AddToBoth(aSumm: Summary, summRow: Summary, v: Double)
    requires aSumm != summRow && aSumm.Valid() && summRow.Valid()
    modifies aSumm, summRow
    ensures aSumm.Valid() && aSumm.values == old(aSumm.values) + [v]
    ensures summRow.Valid() && summRow.values == old(summRow.values) + [v]
    ensures summRow.allIntEl == old(summRow.allIntEl)
  {
    aSumm.Add(v);
    summRow.Add(v);
  }

  /** The invariant of the inner loop, after the first j nonzeros: both
      summaries have seen their coefficients and the tallies count their
      types. */
  ghost predicate ScannedUpTo(es: seq<Entry>, cols: seq<Column>, j: nat,
                              aSumm: Summary, aBefore: seq<Double>, summRow: Summary, rowBefore: seq<Double>,
                              nBinRow: nat, nIntRow: nat, nContRow: nat)
    requires EntriesFit(es, cols) && j <= |es|
    reads aSumm, summRow
  {
    && aSumm.Valid() && aSumm.values == aBefore + Coefs(es[..j])
    && summRow.Valid() && summRow.values == rowBefore + Coefs(es[..j])
    && nBinRow == CountType(es[..j], cols, Binary)
    && nIntRow == CountType(es[..j], cols, GeneralInteger)
    && nContRow == CountType(es[..j], cols, Continuous)
  }

  /** One turn of the inner loop: add the coefficient to both summaries and
      tally the column type, asking isBinary first and isInteger second. */
  method ScanEntry(es: seq<Entry>, cols: seq<Column>, j: nat,
                   aSumm: Summary, ghost aBefore: seq<Double>, summRow: Summary, ghost rowBefore: seq<Double>,
                   nBinRow: nat, nIntRow: nat, nContRow: nat)
      returns (nBin: nat, nInt: nat, nCont: nat)
    requires EntriesFit(es, cols) && j < |es| && aSumm != summRow
    requires ScannedUpTo(es, cols, j, aSumm, aBefore, summRow, rowBefore, nBinRow, nIntRow, nContRow)
    modifies aSumm, summRow
    ensures ScannedUpTo(es, cols, j + 1, aSumm, aBefore, summRow, rowBefore, nBin, nInt, nCont)
    ensures summRow.allIntEl == old(summRow.allIntEl)
  {
    AddToBoth(aSumm, summRow, es[j].coef);
    CoefsAppend(es, j);
    nBin, nInt, nCont := TallyEntry(es, cols, j, nBinRow, nIntRow, nContRow);
  }

  lemma CoefsAppend(es: seq<Entry>, j: nat)
    requires j < |es|
    ensures Coefs(es[..j + 1]) == Coefs(es[..j]) + [es[j].coef]
  {
    assert es[..j + 1][..j] == es[..j];
  }

  /** The type tally of one nonzero: isBinary first, then isInteger. */
  method TallyEntry(es: seq<Entry>, cols: seq<Column>, j: nat, nBinRow: nat, nIntRow: nat, nContRow: nat)
      returns (nBin: nat, nInt: nat, nCont: nat)
    requires EntriesFit(es, cols) && j < |es|
    requires nBinRow == CountType(es[..j], cols, Binary)
    requires nIntRow == CountType(es[..j], cols, GeneralInteger)
    requires nContRow == CountType(es[..j], cols, Continuous)
    ensures nBin == CountType(es[..j + 1], cols, Binary)
    ensures nInt == CountType(es[..j + 1], cols, GeneralInteger)
    ensures nCont == CountType(es[..j + 1], cols, Continuous)
  {
    assert es[..j + 1][..j] == es[..j];
    nBin, nInt, nCont := nBinRow, nIntRow, nContRow;
    var t := cols[es[j].col].varType;
    if IsBinary(t) {
      nBin := nBin + 1;
    } else {
      if IsInteger(t) {
        nInt := nInt + 1;
      } else {
        nCont := nCont + 1;
      }
    }
  }

  /** The inner loop over a row's nonzeros: feeds every coefficient to the
      matrix summary and to the row summary and tallies the variable types. */
  method ScanRow(r: Row, cols: seq<Column>, aSumm: Summary, summRow: Summary)
      returns (nBinRow: nat, nIntRow: nat, nContRow: nat)
    requires RowFits(r, cols) && aSumm != summRow && aSumm.Valid() && summRow.Valid()
    modifies aSumm, summRow
    ensures aSumm.Valid() && aSumm.values == old(aSumm.values) + Coefs(r.entries)
    ensures summRow.Valid() && summRow.values == old(summRow.values) + Coefs(r.entries)
    ensures summRow.allIntEl == old(summRow.allIntEl)
    ensures nBinRow == CountType(r.entries, cols, Binary)
    ensures nIntRow == CountType(r.entries, cols, GeneralInteger)
    ensures nContRow == CountType(r.entries, cols, Continuous)
  {
    nBinRow, nIntRow, nContRow := 0, 0, 0;
    ghost var aBefore, rowBefore := aSumm.values, summRow.values;
    var j := 0;
    assert r.entries[..0] == [];
    while j < |r.entries|
      invariant 0 <= j <= |r.entries|
      invariant ScannedUpTo(r.entries, cols, j, aSumm, aBefore, summRow, rowBefore, nBinRow, nIntRow, nContRow)
      invariant summRow.allIntEl == old(summRow.allIntEl)
    {
      nBinRow, nIntRow, nContRow :=
        ScanEntry(r.entries, cols, j, aSumm, aBefore, summRow, rowBefore, nBinRow, nIntRow, nContRow);
      j := j + 1;
    }
    assert r.entries[..j] == r.entries;
  }

  /** The part of one row's iteration that needs the row summary: scan
      the nonzeros, then classify the row from the tallies and the summary.
      Every class counter the row bumps goes up by one. */
  method ScanAndClassify(features: array<real>, r: Row, cols: seq<Column>, aSumm: Summary)
    requires features.Length == FeatureCount && RowFits(r, cols) && aSumm.Valid()
    modifies features, aSumm
    ensures forall k | 0 <= k < features.Length ::
              features[k] == old(features[k]) + if k < RowLadder && Bumps(Facts(r, cols), k) then 1.0 else 0.0
    ensures aSumm.Valid() && aSumm.values == old(aSumm.values) + Coefs(r.entries)
  {
    var nzRow := |r.entries|;
    var summRow := new Summary();
    var nBinRow, nIntRow, nContRow := ScanRow(r, cols, aSumm, summRow);
    assert summRow.values == Coefs(r.entries);
    assert SummaryFacts(nzRow, nBinRow, nIntRow, nContRow, summRow, r.sense, r.rhs) == Facts(r, cols);
    ClassifyRow(features, nzRow, nBinRow, nIntRow, nContRow, summRow, r.sense, r.rhs);
  }

  /** One iteration of the loop over the rows: every slot the row bumps
      goes up by one, and the three summaries see its length, its
      coefficients and its rhs. */
  method VisitRow(features: array<real>, r: Row, cols: seq<Column>,
                  aSumm: Summary, rhsSumm: Summary, rowNzSumm: Summary)
    requires features.Length == FeatureCount && RowFits(r, cols)
    requires aSumm != rhsSumm && aSumm != rowNzSumm && rhsSumm != rowNzSumm
    requires aSumm.Valid() && rhsSumm.Valid() && rowNzSumm.Valid()
    modifies features, aSumm, rhsSumm, rowNzSumm
    ensures forall k | 0 <= k < features.Length ::
              features[k] == old(features[k]) + if Bumps(Facts(r, cols), k) then 1.0 else 0.0
    ensures aSumm.Valid() && aSumm.values == old(aSumm.values) + Coefs(r.entries)
    ensures rhsSumm.Valid() && rhsSumm.values == old(rhsSumm.values) + [r.rhs]
    ensures rowNzSumm.Valid() && rowNzSumm.values == old(rowNzSumm.values) + [|r.entries| as real]
  {
    var nzRow := |r.entries|;
    rowNzSumm.Add(nzRow as real);
    ScanAndClassify(features, r, cols, aSumm);
    rhsSumm.Add(r.rhs);
    TallyLadder(features, nzRow, RowLadder);
  }

  /** The invariant of the loop over the rows, after the first n rows. */
  ghost predicate RowPassAfter(features: array<real>, before: seq<real>, rows: seq<Row>, cols: seq<Column>, n: nat,
                               aSumm: Summary, rhsSumm: Summary, rowNzSumm: Summary)
    requires RowsFit(rows, cols) && n <= |rows|
    reads features, aSumm, rhsSumm, rowNzSumm
  {
    && features.Length == |before|
    && (forall k | 0 <= k < features.Length :: features[k] == before[k] + RowSlotTotal(rows[..n], cols, k))
    && aSumm.Valid() && aSumm.values == AllCoefs(rows[..n])
    && rhsSumm.Valid() && rhsSumm.values == RhsValues(rows[..n])
    && rowNzSumm.Valid() && rowNzSumm.values == RowLengths(rows[..n])
  }

  /** One turn of the loop over the rows keeps its invariant. */
  method RowStep(features: array<real>, ghost before: seq<real>, rows: seq<Row>, cols: seq<Column>, row: nat,
                 aSumm: Summary, rhsSumm: Summary, rowNzSumm: Summary)
    requires features.Length == FeatureCount && RowsFit(rows, cols) && row < |rows|
    requires aSumm != rhsSumm && aSumm != rowNzSumm && rhsSumm != rowNzSumm
    requires RowPassAfter(features, before, rows, cols, row, aSumm, rhsSumm, rowNzSumm)
    modifies features, aSumm, rhsSumm, rowNzSumm
    ensures RowPassAfter(features, before, rows, cols, row + 1, aSumm, rhsSumm, rowNzSumm)
  {
    VisitRow(features, rows[row], cols, aSumm, rhsSumm, rowNzSumm);
    forall k | 0 <= k < features.Length
      ensures features[k] == before[k] + RowSlotTotal(rows[..row + 1], cols, k)
    {
      RowSlotTotalAppend(rows, cols, row, k);
    }
    assert rows[..row + 1][..row] == rows[..row];
  }

  /** The loop over the rows: every class counter and every slot of the row
      ladder ends up holding the number of rows that bump it, and the
      coefficient, rhs and row-length summaries have seen every value. */
  method RowPass(features: array<real>, rows: seq<Row>, cols: seq<Column>,
                 aSumm: Summary, rhsSumm: Summary, rowNzSumm: Summary)
    requires features.Length == FeatureCount && RowsFit(rows, cols)
    requires aSumm != rhsSumm && aSumm != rowNzSumm && rhsSumm != rowNzSumm
    requires aSumm.Valid() && rhsSumm.Valid() && rowNzSumm.Valid()
    requires aSumm.values == [] && rhsSumm.values == [] && rowNzSumm.values == []
    modifies features, aSumm, rhsSumm, rowNzSumm
    ensures forall k | 0 <= k < features.Length ::
              features[k] == old(features[k]) + RowSlotTotal(rows, cols, k)
    ensures aSumm.Valid() && aSumm.values == AllCoefs(rows)
    ensures rhsSumm.Valid() && rhsSumm.values == RhsValues(rows)
    ensures rowNzSumm.Valid() && rowNzSumm.values == RowLengths(rows)
  {
    ghost var before := features[..];
    var row := 0;
    assert rows[..0] == [];
    while row < |rows|
      invariant 0 <= row <= |rows|
      invariant RowPassAfter(features, before, rows, cols, row, aSumm, rhsSumm, rowNzSumm)
    {
      RowStep(features, before, rows, cols, row, aSumm, rhsSumm, rowNzSumm);
      row := row + 1;
    }
    assert rows[..row] == rows;
  }

  /** What the column pass adds to slot k. */
  function ColSlotTotal(cols: seq<Column>, k: nat): real {
    if ColsBin <= k < PercRowsPartitioning then ColTotal(cols, k) as real else 0.0
  }

  lemma ColSlotTotalAppend(cols: seq<Column>, n: nat, k: nat)
    requires n < |cols|
    ensures ColSlotTotal(cols[..n + 1], k)
            == ColSlotTotal(cols[..n], k) + if ColBumps(cols[n], k) then 1.0 else 0.0
  {
    ColTotalAppend(cols, n, k);
  }

  /** One iteration of the loop over the columns: the objective summary
      sees the column's objective coefficient, the type counters ask
      isInteger first and isBinary second, the degree summary sees the
      column's length and the column ladder is tallied. */
  method VisitColumn(features: array<real>, c: Column, objSumm: Summary, colNzSumm: Summary)
    requires features.Length == FeatureCount && c.nz <= MaxInt
    requires objSumm != colNzSumm && objSumm.Valid() && colNzSumm.Valid()
    modifies features, objSumm, colNzSumm
    ensures forall k | 0 <= k < features.Length ::
              features[k] == old(features[k]) + if ColBumps(c, k) then 1.0 else 0.0
    ensures objSumm.Valid() && objSumm.values == old(objSumm.values) + [c.obj]
    ensures colNzSumm.Valid() && colNzSumm.values == old(colNzSumm.values) + [c.nz as real]
    ensures colNzSumm.avg == old(colNzSumm.avg)
  {
    objSumm.Add(c.obj);
    if IsInteger(c.varType) {
      if IsBinary(c.varType) {
        features[ColsBin] := features[ColsBin] + 1.0;
      } else {
        features[ColsGenInt] := features[ColsGenInt] + 1.0;
      }
      features[ColsInteger] := features[ColsInteger] + 1.0;
    } else {
      features[ColsContinuous] := features[ColsContinuous] + 1.0;
    }
    colNzSumm.Add(c.nz as real);
    TallyLadder(features, c.nz, ColLadder);
  }

  /** The invariant of the loop over the columns, after the first n columns. */
  ghost predicate ColumnPassAfter(features: array<real>, before: seq<real>, cols: seq<Column>, n: nat,
                                  objSumm: Summary, colNzSumm: Summary)
    requires ColsFit(cols) && n <= |cols|
    reads features, objSumm, colNzSumm
  {
    && features.Length == |before|
    && (forall k | 0 <= k < features.Length :: features[k] == before[k] + ColSlotTotal(cols[..n], k))
    && objSumm.Valid() && objSumm.values == ObjValues(cols[..n])
    && colNzSumm.Valid() && colNzSumm.values == ColLengths(cols[..n])
  }

  /** One turn of the loop over the columns keeps its invariant. */
  method ColumnStep(features: array<real>, ghost before: seq<real>, cols: seq<Column>, j: nat,
                    objSumm: Summary, colNzSumm: Summary)
    requires features.Length == FeatureCount && ColsFit(cols) && j < |cols| && objSumm != colNzSumm
    requires ColumnPassAfter(features, before, cols, j, objSumm, colNzSumm)
    modifies features, objSumm, colNzSumm
    ensures ColumnPassAfter(features, before, cols, j + 1, objSumm, colNzSumm)
    ensures colNzSumm.avg == old(colNzSumm.avg)
  {
    VisitColumn(features, cols[j], objSumm, colNzSumm);
    forall k | 0 <= k < features.Length
      ensures features[k] == before[k] + ColSlotTotal(cols[..j + 1], k)
    {
      ColSlotTotalAppend(cols, j, k);
    }
    assert cols[..j + 1][..j] == cols[..j];
  }

  /** The loop over the columns: every type counter and every slot of the
      column ladder ends up holding the number of columns that bump it, and
      the objective and column-length summaries have seen every value. */
  method ColumnPass(features: array<real>, cols: seq<Column>, objSumm: Summary, colNzSumm: Summary)
    requires features.Length == FeatureCount && ColsFit(cols) && objSumm != colNzSumm
    requires objSumm.Valid() && colNzSumm.Valid() && objSumm.values == [] && colNzSumm.values == []
    modifies features, objSumm, colNzSumm
    ensures forall k | 0 <= k < features.Length :: features[k] == old(features[k]) + ColSlotTotal(cols, k)
    ensures objSumm.Valid() && objSumm.values == ObjValues(cols)
    ensures colNzSumm.Valid() && colNzSumm.values == ColLengths(cols)
    ensures colNzSumm.avg == old(colNzSumm.avg)
  {
    ghost var before := features[..];
    var j := 0;
    assert cols[..0] == [];
    while j < |cols|
      invariant 0 <= j <= |cols|
      invariant ColumnPassAfter(features, before, cols, j, objSumm, colNzSumm)
      invariant colNzSumm.avg == old(colNzSumm.avg)
    {
      ColumnStep(features, before, cols, j, objSumm, colNzSumm);
      j := j + 1;
    }
    assert cols[..j] == cols;
  }
}
