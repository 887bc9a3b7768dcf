# OsiFeatures: a verified model of the MIP feature extractor

`OsiFeatures::compute` (src/Osi/OsiFeatures.cpp) reads a mixed-integer
program through an `OsiSolverInterface` and fills a vector of numeric
features. The vector holds:

- the problem's size and density;
- a classification of every constraint row (singleton, aggregation,
  variable bound, precedence, set partitioning, covering and packing,
  cardinality, knapsack, integer knapsack, inverse knapsack, bin packing,
  binary and mixed flow, mixed binary, general integer);
- the row and column type counts;
- two "degree ladders" that count rows and columns with at most or at
  least 4, 8, ..., 4096 nonzeros;
- percentages of these counts (two of the percentage slots, for equality
  rows and for knapsack rows, are never written);
- summaries (min, max, average, ratio of largest to smallest magnitude,
  all-integral flag, integral percentage) of the matrix coefficients, the
  objective, the right-hand sides and the row and column lengths.

The model has these parts:

- The two tolerance predicates `dbl_equal` and `intVal`: `Numerics`.
- The `Summary` accumulator class and the specification functions its
  fields are kept equal to: `Stats`.
- The problem as a value: `Problem`.
- The feature-vector layout: `Slots`.
- The per-row classification, as pure facts and predicates: `RowClass`.
- What the counting slots add up to over all rows and columns: `Totals`.
- The whole vector as a function of the problem, with its properties:
  `FeatureValues`.
- The row and column passes, as methods over `array<real>` that mirror the
  source's nested `if`s and `switch`es: `Features`.
- `compute` itself, proved to leave exactly `FeatureValues.SlotValue(p, k)`
  in every slot: `Assembly`.

The model follows the code as written. Several behaviours it keeps, and
proves, are ones that a reader of the code would not expect:

- `intVal(v)` rounds `v + 0.5`. It therefore rejects every non-negative
  integer and accepts every negative integer, for integers of magnitude
  below 2^52, where `v + 0.5` is exact in a double (`Numerics`).
- The precedence test asks for one negative and one positive coefficient
  that are equal within 1e-16. That cannot hold, so the precedence counter
  is always 0.
- The integer-knapsack test reads `summRow.allIntEl` before the row summary
  is finished. It is always 0, so that counter is always 0.
- The binary-flow and mixed-flow percentages divide their own (still zero)
  slots instead of the flow counters, so they are always 0.
- The feature-name table has an equality percentage and a knapsack
  percentage (OsiFeatures.cpp lines 95 and 116). `compute` zeroes them with
  the rest of the vector and never writes them, so they are always 0 even
  when equality or knapsack rows were counted.
- `colNzSumm` is never finished, so the column-length average slot keeps
  the constructor's 0.
- `Summary` starts `maxV` and `maxAbsV` at the smallest positive normal
  double, not at the lowest double. An all-negative set of values therefore
  reports that positive number as its maximum.

## Model

| member | source | states |
|---|---|---|
| Numerics.RoundHalfAway | src/Osi/OsiFeatures.cpp:16 | C `round`: the result is within one half of its argument, and ties go away from zero |
| Numerics.DblEqual | src/Osi/OsiFeatures.cpp:11-13 | `dbl_equal(v1, v2)` accepts exactly the closed band of half-width 1e-16 around v2, and equally the band around v1, so the test is symmetric |
| Numerics.IntVal | src/Osi/OsiFeatures.cpp:15-18 | `intVal(v)` holds exactly when v is a negative integer, or v is not an integer and lies at most 1e-16 below the next integer up |
| Numerics.NonNegativeIntegerIsNotIntVal | src/Osi/OsiFeatures.cpp:15-18 | `intVal` rejects 0, 1, 2, ... |
| Numerics.NegativeIntegerIsIntVal | src/Osi/OsiFeatures.cpp:15-18 | `intVal` accepts -1, -2, ... |
| Stats.Summary.constructor | src/Osi/OsiFeatures.cpp:25-39 | a fresh summary has no values and the initial field values: DBL_MAX, DBL_MIN, zeros |
| Stats.Summary.Add | src/Osi/OsiFeatures.cpp:41-60 | appends the value and keeps every running field equal to its specification function (min, max, min/max magnitude of values at least 1e-16, sum, integral, positive and negative counts); the value ends up between minV and maxV; the finished fields are untouched |
| Stats.Summary.AddToExtremes | src/Osi/OsiFeatures.cpp:42-48 | the min/max update, with magnitudes below 1e-16 left out of the magnitude extremes |
| Stats.Summary.AddToCounters | src/Osi/OsiFeatures.cpp:49-59 | sum, integral count, and the positive (>= 1e-16) and negative (<= -1e-16) counts, which are exclusive |
| Stats.Summary.Finish | src/Osi/OsiFeatures.cpp:62-73 | sets avg, ratioLSA, allIntEl and percIntEl to the average, magnitude ratio, all-integral flag and integral percentage of the values added |
| Stats.MinOfIsLeast | src/Osi/OsiFeatures.cpp:42 | minV is at most every value added, and is either DBL_MAX or one of the values |
| Stats.MaxOfIsGreatest | src/Osi/OsiFeatures.cpp:43 | maxV is at least every value added, and is either DBL_MIN or one of the values |
| Stats.MinAbsOfIsLeast | src/Osi/OsiFeatures.cpp:45-46 | minAbsV is the least magnitude at least 1e-16, or DBL_MAX if there is none |
| Stats.MaxAbsOfIsGreatest | src/Osi/OsiFeatures.cpp:45-47 | maxAbsV is the greatest magnitude at least 1e-16, or DBL_MIN if there is none |
| Stats.SignCountsBounded | src/Osi/OsiFeatures.cpp:52-57 | no value is counted both positive and negative |
| Stats.CountIntegralAll | src/Osi/OsiFeatures.cpp:50-51 | intEl equals nEl exactly when `intVal` accepts every value |
| Stats.AppendUpdates | src/Osi/OsiFeatures.cpp:41-60 | how each specification function changes when one value is added |
| Stats.Average | src/Osi/OsiFeatures.cpp:63 | the average lies between minV and maxV |
| Stats.RatioLSA | src/Osi/OsiFeatures.cpp:64-65 | the ratio is positive, and it is at least 1 exactly when some value has magnitude at least 1e-16 |
| Stats.AllIntFlag | src/Osi/OsiFeatures.cpp:67-70 | the flag is 0 or 1, and it is 1 exactly when every value passes `intVal` |
| Stats.PercIntegral | src/Osi/OsiFeatures.cpp:72 | a percentage in [0, 100], equal to 100 exactly when the all-integral flag is 1 |
| Slots.PercentageOf | src/Osi/OsiFeatures.cpp:493-507 | each row-class percentage reads its own counter, except the two flow percentages, which read themselves |
| Slots.Percent | src/Osi/OsiFeatures.cpp:493 | count/total*100 is non-negative; it is at most 100 when count <= total, 0 exactly for count 0, and 100 exactly for count == total |
| Slots.PercentMonotone | src/Osi/OsiFeatures.cpp:600-601 | a smaller count gives a smaller percentage |
| RowClass.Facts | src/Osi/OsiFeatures.cpp:312-338 | what the classifier reads about a row: its length is its number of entries, the binary, general-integer and continuous tallies add up to that length, the positive and negative counts together do not exceed it, and `intCoefs` is false because `summRow` is never finished |
| RowClass.Bumps | src/Osi/OsiFeatures.cpp:340-490 | the per-row classifier, one independent test per slot; a row bumps only class counters and row-ladder slots |
| RowClass.LadderBumps | src/Osi/OsiFeatures.cpp:430-490 | a row bumps a ladder slot exactly when its length is within that slot's threshold |
| RowClass.LadderBumpsNested | src/Osi/OsiFeatures.cpp:430-490 | a row that bumps an "at most" slot bumps the next one too, and a row that bumps an "at least" slot bumps the previous one too |
| RowClass.TypeTalliesCoverRow | src/Osi/OsiFeatures.cpp:326-334 | every entry of a row is tallied as binary, general integer or continuous, exactly once |
| RowClass.AllBinaryIff | src/Osi/OsiFeatures.cpp:337 | `rowBin` holds exactly when every variable of the row is binary |
| RowClass.UnitExtremes | src/Osi/OsiFeatures.cpp:364 | a running min and max both equal 1 within 1e-16 exactly when there is a value and every value does |
| RowClass.OnlyOnesIff | src/Osi/OsiFeatures.cpp:364 | summRow's min and max both equal 1 within 1e-16 exactly when the row has a nonzero and every coefficient equals 1 within 1e-16 |
| RowClass.SetPartitioningFamily | src/Osi/OsiFeatures.cpp:362-377 | partitioning, covering and packing each mean all-binary, unit coefficients, right-hand side 1 and sense E, G or L; the three classes are pairwise exclusive |
| RowClass.NoPrecedenceRow | src/Osi/OsiFeatures.cpp:351-354 | no row passes the precedence test |
| RowClass.NoIntegerKnapsackRow | src/Osi/OsiFeatures.cpp:338 | no row passes the integer-knapsack test, because `allIntEl` of the row summary is 0; `Features.ScanAndClassify` shows that this summary is never finished |
| RowClass.KnapsackShape | src/Osi/OsiFeatures.cpp:392-398 | a knapsack row has only binary variables, at least two entries and no coefficient at or below -1e-16 |
| RowClass.SingleValueSpread | src/Osi/OsiFeatures.cpp:393 | a single finite coefficient above -1e-16 never has a spread (max - min) of 0.1 |
| RowClass.BinPackingShape | src/Osi/OsiFeatures.cpp:399-401 | a bin-packing row has at least two entries and exactly one negative coefficient |
| RowClass.FlowRowsAreNotUnitRows | src/Osi/OsiFeatures.cpp:405-411 | a flow row never has all coefficients equal to 1 |
| RowClass.AggregationAndPartitioningTogether | src/Osi/OsiFeatures.cpp:344-368 | one row can be counted both as an aggregation and as set partitioning |
| Totals.RowTotal | src/Osi/OsiFeatures.cpp:311-491 | the number of rows that bump a slot is at most the number of rows |
| Totals.ColTotal | src/Osi/OsiFeatures.cpp:515-598 | the number of columns that bump a slot is at most the number of columns |
| Totals.SenseTotals | src/Osi/OsiFeatures.cpp:418-426 | equalities + inequalities == number of rows |
| Totals.ColTypeTotals | src/Osi/OsiFeatures.cpp:518-527 | bin + genInt == integer, and integer + continuous == number of columns |
| Totals.SetPartitioningTotals | src/Osi/OsiFeatures.cpp:366-376 | partitioning + covering + packing <= number of rows |
| Totals.NeverCounted | src/Osi/OsiFeatures.cpp:351-396 | the precedence and integer-knapsack counters are 0 on every problem |
| Totals.RowTotalMonotone | src/Osi/OsiFeatures.cpp:430-490 | a slot bumped whenever another one is counts at least as many rows |
| Totals.RowLadderNested | src/Osi/OsiFeatures.cpp:430-490 | the row ladder is nested: "at most" counts grow with the threshold and "at least" counts shrink |
| Totals.ColLadderNested | src/Osi/OsiFeatures.cpp:536-597 | the column ladder is nested in the same way |
| Totals.RowLadderCounts | src/Osi/OsiFeatures.cpp:430-490 | each row-ladder slot counts exactly the rows with at most (or at least) its threshold of nonzeros |
| Totals.RowAtMostCounts | src/Osi/OsiFeatures.cpp:430-456 | each "at most" slot of the row ladder counts exactly the rows with at most its threshold of nonzeros |
| Totals.RowAtLeastCounts | src/Osi/OsiFeatures.cpp:458-490 | each "at least" slot of the row ladder counts exactly the rows with at least its threshold of nonzeros |
| Totals.ColLadderCounts | src/Osi/OsiFeatures.cpp:536-597 | the same for the columns |
| FeatureValues.SlotValue | src/Osi/OsiFeatures.cpp:293-682 | the value compute leaves in slot k; row counters lie in [0, rows], column counters in [0, cols], and every percentage in [0, 100] |
| FeatureValues.SenseSlots | src/Osi/OsiFeatures.cpp:418-426 | in the vector, equalities + inequalities == rows |
| FeatureValues.ColumnTypeSlots | src/Osi/OsiFeatures.cpp:518-601 | bin + genInt == integer and integer + continuous == cols in the vector; the binary percentage never exceeds the integer percentage |
| FeatureValues.SetPartitioningSlots | src/Osi/OsiFeatures.cpp:366-376 | partitioning + covering + packing never exceeds rows in the vector |
| FeatureValues.NeverCountedSlots | src/Osi/OsiFeatures.cpp:351-501 | the precedence and integer-knapsack counters and their percentages are 0 |
| FeatureValues.RowLadderSlotsNested | src/Osi/OsiFeatures.cpp:430-490 | the row ladder slots are nested in the vector |
| FeatureValues.ColLadderSlotsNested | src/Osi/OsiFeatures.cpp:536-597 | the column ladder slots are nested in the vector |
| FeatureValues.LadderSlotsMeaning | src/Osi/OsiFeatures.cpp:430-597 | every ladder slot equals the number of rows (columns) within its threshold |
| FeatureValues.CoefficientSlots | src/Osi/OsiFeatures.cpp:603-609 | the coefficient min and max bracket every matrix coefficient and the average; the all-integral slot is 0 or 1, and 1 exactly when `intVal` accepts every coefficient |
| FeatureValues.NonNegativeIntegerCoefficientClearsAllInt | src/Osi/OsiFeatures.cpp:15-18 | a matrix holding any coefficient 0, 1, 2, ... is reported as not all-integral |
| FeatureValues.FlowPercentageIgnoresFlowRows | src/Osi/OsiFeatures.cpp:506 | a problem with one binary flow row has flow counter 1 but flow percentage 0 |
| FeatureValues.UnwrittenPercentages | src/Osi/OsiFeatures.cpp:493-507 | a problem with one equality row that is also a knapsack row has equality counter 1 and knapsack counter 1, but equality and knapsack percentages of 0, because no assignment writes those two slots |
| Features.TallyLadder | src/Osi/OsiFeatures.cpp:430-490 | the nested ladder increments add 1 to exactly the ladder slots the length falls in, and change nothing else |
| Features.ClassifyByLength | src/Osi/OsiFeatures.cpp:340-356 | the switch on the row length bumps the singleton, aggregation, variable-bound and precedence slots exactly as the predicates say |
| Features.ClassifyBinaryRow | src/Osi/OsiFeatures.cpp:362-407 | the all-binary branch bumps exactly the partitioning through binary-flow slots the predicates select |
| Features.ClassifyMixedRow | src/Osi/OsiFeatures.cpp:408-416 | the other branch bumps exactly the mixed-flow, mixed-binary and general-integer slots the predicates select |
| Features.ClassifyRow | src/Osi/OsiFeatures.cpp:340-426 | each classification slot k grows by 1 exactly when `Bumps(Facts(row), k)` holds; the rest of the array is unchanged |
| Features.TallyEntry | src/Osi/OsiFeatures.cpp:326-334 | the isBinary-then-isInteger tally counts binary, general integer and continuous entries |
| Features.ScanRow | src/Osi/OsiFeatures.cpp:322-335 | the entry loop adds the row's coefficients to aSumm and summRow in order, and returns the three type counts |
| Features.ScanAndClassify | src/Osi/OsiFeatures.cpp:319-426 | scanning a row's entries and classifying it from the tallies and the unfinished `summRow`: each class counter grows by 1 exactly when `Bumps(Facts(row), k)` holds, with `intCoefs` false; aSumm receives the row's coefficients |
| Features.VisitRow | src/Osi/OsiFeatures.cpp:312-490 | one row iteration: every slot grows by that row's bump, and aSumm, rhsSumm and rowNzSumm receive its coefficients, right-hand side and length |
| Features.RowPass | src/Osi/OsiFeatures.cpp:311-491 | after the row loop every slot has grown by the number of rows that bump it, and the three summaries hold all coefficients, right-hand sides and row lengths |
| Features.VisitColumn | src/Osi/OsiFeatures.cpp:516-597 | one column iteration: the type and ladder slots grow by that column's bump, and objSumm and colNzSumm receive its objective coefficient and length |
| Features.ColumnPass | src/Osi/OsiFeatures.cpp:515-598 | after the column loop every slot has grown by the number of columns that bump it, and objSumm and colNzSumm hold all objective coefficients and column lengths |
| Assembly.ZeroFeatures | src/Osi/OsiFeatures.cpp:294-296 | every slot of the vector becomes 0 |
| Assembly.BasicStage | src/Osi/OsiFeatures.cpp:297-301 | after the first step only the five basic slots are nonzero: cols, rows, cols/rows, nz and the density nz/(cols*rows)*100 |
| Assembly.BasicAt | src/Osi/OsiFeatures.cpp:294-301 | a zeroed vector holding the five basic sizes agrees with the specification on every slot after the first step |
| Assembly.BasicStep | src/Osi/OsiFeatures.cpp:294-301 | zeroing the vector and writing the basic sizes leaves it agreeing with the specification after the first step |
| Assembly.RowPassStage | src/Osi/OsiFeatures.cpp:311-491 | the row pass adds to each slot the number of rows that bump it |
| Assembly.RowPassStep | src/Osi/OsiFeatures.cpp:303-491 | after the row loop with three fresh summaries the vector agrees with the specification, and aSumm, rhsSumm and rowNzSumm hold all coefficients, right-hand sides and row lengths |
| Assembly.RowPercentStage | src/Osi/OsiFeatures.cpp:493-507 | each row-class percentage is its counter over the row count times 100, and the flow percentages read their own slots |
| Assembly.FinishRowSummaries | src/Osi/OsiFeatures.cpp:508-510 | aSumm, rhsSumm and rowNzSumm come out finished, holding the values they held before |
| Assembly.RowStepAndPercentages | src/Osi/OsiFeatures.cpp:303-510 | after the row loop, the row percentages and the three finish calls, the vector agrees with the specification and the three row summaries are finished |
| Assembly.ColumnPassStage | src/Osi/OsiFeatures.cpp:515-598 | the column pass adds to each slot the number of columns that bump it |
| Assembly.ColumnPercentages | src/Osi/OsiFeatures.cpp:600-601 | percInteger and percBin become the integer and binary column counters over the column count times 100, and nothing else changes |
| Assembly.ColumnPercentStage | src/Osi/OsiFeatures.cpp:600-601 | the integer and binary percentages are their counters over the column count times 100 |
| Assembly.SummaryStage | src/Osi/OsiFeatures.cpp:603-635 | the summary slots hold the outputs of the coefficient, objective, rhs and row-length summaries, the column-length min and max, and 0 for the column-length average |
| Assembly.CopyValueSummaries | src/Osi/OsiFeatures.cpp:603-625 | the outputs of the coefficient, objective and rhs summaries land in their slots and nothing else changes |
| Assembly.CopyDegreeSummaries | src/Osi/OsiFeatures.cpp:627-634 | the row-length min, max and average and the column-length min, max and (unfinished) average land in their slots and nothing else changes |
| Assembly.LadderPercentStage | src/Osi/OsiFeatures.cpp:637-681 | each ladder percentage is its ladder slot over the row or column count times 100 |
| Assembly.LadderStep | src/Osi/OsiFeatures.cpp:637-681 | after the ladder percentages the vector agrees with the specification on every slot |
| Assembly.RowPercentages | src/Osi/OsiFeatures.cpp:493-507 | each row-class percentage becomes its source slot over the row count times 100, and nothing else changes |
| Assembly.CopySummary | src/Osi/OsiFeatures.cpp:603-609 | the min, max, average, ratio, flag and integral-percentage outputs of a finished summary land in their six slots |
| Assembly.LadderPercentages | src/Osi/OsiFeatures.cpp:637-681 | each ladder percentage becomes its counter over the total times 100 |
| Assembly.ColumnStepAndPercentages | src/Osi/OsiFeatures.cpp:512-601 | after the column loop, objSumm.finish and the two column percentages, the vector agrees with the specification on every slot filled so far |
| Assembly.SummaryStep | src/Osi/OsiFeatures.cpp:603-635 | after the summary outputs are written, the vector agrees with the specification on every slot filled so far |
| Assembly.Compute | src/Osi/OsiFeatures.cpp:293-682 | `compute` leaves `SlotValue(p, k)` in every slot k of the feature vector |

## Left out

- The standard-deviation slots: `std_dev` computes a square root in long double, and the model leaves these slots at the 0 they are initialised to.
- The feature-name table and `OsiFeatures::name`: these are strings only.
- IEEE rounding, overflow, NaN, infinities and long-double intermediates: numbers are exact reals. A well-formed problem holds only coefficients, right-hand sides and objective coefficients within ±DBL_MAX, but sums and quotients have no range limit. The sentinels DBL_MAX and DBL_MIN keep their exact values, (2^53 - 1) * 2^971 and 2^-1022.
- Stats.RatioLSA: when no value has magnitude at least 1e-16, the source divides DBL_MIN by DBL_MAX, which underflows to 0.0 in a double. The model keeps the exact, tiny positive quotient. This happens for an all-zero objective or right-hand side.
- Numerics.NonNegativeIntegerIsNotIntVal: holds only for integers below 2^52 in a double. Above that, `v + 0.5` rounds back to an even integer, so `intVal` accepts the even integers in [2^52, 2^53) and every integer from 2^53 up.
- Numerics.NegativeIntegerIsIntVal: holds only for integers above -2^52 in a double. Between -2^53 and -2^52, `v + 0.5` is a tie that rounds to the even neighbour, so `intVal` rejects the odd negative integers there.
- FeatureValues.NonNegativeIntegerCoefficientClearsAllInt: inherits the 2^52 bound of Numerics.NonNegativeIntegerIsNotIntVal, because a large even coefficient passes `intVal` in a double.
- The unsigned 32-bit row counter and the `int` lengths: lengths are bounded by 2^31 - 1 in the well-formedness predicate, and no wrap-around is modelled.
- `OsiSolverInterface` and `CoinPackedMatrix`: these are replaced by an `Instance` value holding rows (entries, sense, right-hand side) and columns (type, objective coefficient, length).
- `Column.nz`: it is not tied to the number of row entries that name the column. The source reads it from the column-wise copy of the matrix.
- Column types: `VarType` assumes that every binary variable is also integer, as Osi's `isBinary` does.
- OsiFeatures.hpp is not part of this model, so the slot numbers in `Slots` are the model's own layout and not the header's enumeration. That layout groups the column counters before the row percentages, and numbers each ladder from its smallest threshold up. It does not follow the order in which compute fills the slots, and no slot's value depends on the layout. The vector has 155 slots, one per name in the feature-name table. The table itself has only 154 initialisers, because a missing comma at lines 245-246 joins two names; `OsiFeature::OFCount` is defined in the header. `PercEqualities` and `PercRowsKnapsack` are the two slots that `compute` never writes.
- Assembly.Compute: requires at least one row, one column and one nonzero. With none, the source divides by zero and stores an infinity or NaN, which reals cannot represent.
- Stats.Summary.Finish: requires at least one value, for the same reason (`summV / nEl`).
- Row senses other than 'E', 'G' and 'L' (such as 'R' or 'N') are treated as the source treats them: they are counted as inequalities and fall through the sense switches.
