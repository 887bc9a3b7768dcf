/** What the row pass and the column pass of OsiFeatures::compute add up:
    the value each counting slot holds once every row (every column) has
    been classified, and the relations between those totals. */
module Totals {
  import opened Problem
  import opened Slots
  import opened RowClass

  /** The number of rows that bump slot k. */
  function RowTotal(rows: seq<Row>, cols: seq<Column>, k: nat): (n: nat)
    requires RowsFit(rows, cols)
    ensures n <= |rows|
  {
    if rows == [] then 0
    else RowTotal(rows[..|rows| - 1], cols, k) + (if Bumps(Facts(rows[|rows| - 1], cols), k) then 1 else 0)
  }

  /** Whether a column bumps slot k during the column pass: the type
      counters ask isInteger first and isBinary second, then the ladder. */
  predicate ColBumps(c: Column, k: nat) {
    if k == ColsBin then IsInteger(c.varType) && IsBinary(c.varType)
    else if k == ColsGenInt then IsInteger(c.varType) && !IsBinary(c.varType)
    else if k == ColsInteger then IsInteger(c.varType)
    else if k == ColsContinuous then !IsInteger(c.varType)
    else InLadder(c.nz, ColLadder, k)
  }

  /** The number of columns that bump slot k. */
  function ColTotal(cols: seq<Column>, k: nat): (n: nat)
    ensures n <= |cols|
  {
    if cols == [] then 0
    else ColTotal(cols[..|cols| - 1], k) + (if ColBumps(cols[|cols| - 1], k) then 1 else 0)
  }

  /** One more row adds its own bump to the total. */
  lemma RowTotalAppend(rows: seq<Row>, cols: seq<Column>, n: nat, k: nat)
    requires RowsFit(rows, cols) && n < |rows|
    ensures RowTotal(rows[..n + 1], cols, k)
            == RowTotal(rows[..n], cols, k) + if Bumps(Facts(rows[n], cols), k) then 1 else 0
  {
    assert rows[..n + 1][..n] == rows[..n];
  }

  lemma ColTotalAppend(cols: seq<Column>, n: nat, k: nat)
    requires n < |cols|
    ensures ColTotal(cols[..n + 1], k) == ColTotal(cols[..n], k) + if ColBumps(cols[n], k) then 1 else 0
  {
    assert cols[..n + 1][..n] == cols[..n];
  }

  /** Rows with at most t nonzeros, and with at least t nonzeros. */
  function RowsWithAtMost(rows: seq<Row>, t: nat): nat {
    if rows == [] then 0
    else RowsWithAtMost(rows[..|rows| - 1], t) + (if |rows[|rows| - 1].entries| <= t then 1 else 0)
  }

  function RowsWithAtLeast(rows: seq<Row>, t: nat): nat {
    if rows == [] then 0
    else RowsWithAtLeast(rows[..|rows| - 1], t) + (if |rows[|rows| - 1].entries| >= t then 1 else 0)
  }

  /** Columns with at most t nonzeros, and with at least t nonzeros. */
  function ColsWithAtMost(cols: seq<Column>, t: nat): nat {
    if cols == [] then 0
    else ColsWithAtMost(cols[..|cols| - 1], t) + (if cols[|cols| - 1].nz <= t then 1 else 0)
  }

  function ColsWithAtLeast(cols: seq<Column>, t: nat): nat {
    if cols == [] then 0
    else ColsWithAtLeast(cols[..|cols| - 1], t) + (if cols[|cols| - 1].nz >= t then 1 else 0)
  }

  /** Every row is counted either as an equality or as an inequality. */
  lemma {:induction false} SenseTotals(rows: seq<Row>, cols: seq<Column>)
    requires RowsFit(rows, cols)
    ensures RowTotal(rows, cols, Equalities) + RowTotal(rows, cols, Inequalities) == |rows|
  {
    if rows != [] {
      SenseTotals(rows[..|rows| - 1], cols);
    }
  }

  /** Binary and general integer columns make up the integer columns, and
      integer and continuous columns make up all columns. */
  lemma {:induction false} ColTypeTotals(cols: seq<Column>)
    ensures ColTotal(cols, ColsBin) + ColTotal(cols, ColsGenInt) == ColTotal(cols, ColsInteger)
    ensures ColTotal(cols, ColsInteger) + ColTotal(cols, ColsContinuous) == |cols|
  {
    if cols != [] {
      ColTypeTotals(cols[..|cols| - 1]);
    }
  }

  /** Partitioning, covering and packing rows are disjoint, so together
      they are at most all rows. */
  lemma {:induction false} SetPartitioningTotals(rows: seq<Row>, cols: seq<Column>)
    requires RowsFit(rows, cols)
    ensures RowTotal(rows, cols, RowsPartitioning) + RowTotal(rows, cols, RowsCovering)
            + RowTotal(rows, cols, RowsPacking) <= |rows|
  {
    if rows != [] {
      SetPartitioningTotals(rows[..|rows| - 1], cols);
      SetClassesExclusive(Facts(rows[|rows| - 1], cols));
    }
  }

  /** A slot no row bumps stays at zero. */
  lemma {:induction false} RowTotalNever(rows: seq<Row>, cols: seq<Column>, k: nat)
    requires RowsFit(rows, cols)
    requires forall i | 0 <= i < |rows| :: !Bumps(Facts(rows[i], cols), k)
    ensures RowTotal(rows, cols, k) == 0
  {
    if rows != [] {
      RowTotalNever(rows[..|rows| - 1], cols, k);
    }
  }

  /** The precedence and integer-knapsack counters are zero on every problem. */
  lemma NeverCounted(rows: seq<Row>, cols: seq<Column>)
    requires RowsFit(rows, cols)
    ensures RowTotal(rows, cols, RowsPrec) == 0
    ensures RowTotal(rows, cols, RowsIntegerKnapsack) == 0
  {
    forall i | 0 <= i < |rows| ensures !Bumps(Facts(rows[i], cols), RowsPrec) {
      NoPrecedenceRow(rows[i], cols);
    }
    RowTotalNever(rows, cols, RowsPrec);
    RowTotalNever(rows, cols, RowsIntegerKnapsack);
  }

  /** A slot bumped whenever another one is counts at least as many rows. */
  lemma {:induction false} RowTotalMonotone(rows: seq<Row>, cols: seq<Column>, a: nat, b: nat)
    requires RowsFit(rows, cols)
    requires forall i | 0 <= i < |rows| :: Bumps(Facts(rows[i], cols), a) ==> Bumps(Facts(rows[i], cols), b)
    ensures RowTotal(rows, cols, a) <= RowTotal(rows, cols, b)
  {
    if rows != [] {
      RowTotalMonotone(rows[..|rows| - 1], cols, a, b);
    }
  }

  lemma {:induction false} ColTotalMonotone(cols: seq<Column>, a: nat, b: nat)
    requires forall j | 0 <= j < |cols| :: ColBumps(cols[j], a) ==> ColBumps(cols[j], b)
    ensures ColTotal(cols, a) <= ColTotal(cols, b)
  {
    if cols != [] {
      ColTotalMonotone(cols[..|cols| - 1], a, b);
    }
  }

  /** The ladders are nested: each "at most" slot counts no more rows than
      the next (larger threshold), and each "at least" slot no fewer than
      the next. */
  lemma {:induction false} RowLadderNested(rows: seq<Row>, cols: seq<Column>, k: nat)
    requires RowsFit(rows, cols)
    requires RowLadder <= k < RowLadder + LadderSize - 1 && k != RowLadder + AtMostCount - 1
    ensures k < RowLadder + AtMostCount ==> RowTotal(rows, cols, k) <= RowTotal(rows, cols, k + 1)
    ensures k >= RowLadder + AtMostCount ==> RowTotal(rows, cols, k + 1) <= RowTotal(rows, cols, k)
  {
    if rows != [] {
      RowLadderNested(rows[..|rows| - 1], cols, k);
      LadderBumpsNested(Facts(rows[|rows| - 1], cols), k);
    }
  }

  lemma ColLadderNested(cols: seq<Column>, k: nat)
    requires ColLadder <= k < ColLadder + LadderSize - 1 && k != ColLadder + AtMostCount - 1
    ensures k < ColLadder + AtMostCount ==> ColTotal(cols, k) <= ColTotal(cols, k + 1)
    ensures k >= ColLadder + AtMostCount ==> ColTotal(cols, k + 1) <= ColTotal(cols, k)
  {
    if k < ColLadder + AtMostCount {
      ColTotalMonotone(cols, k, k + 1);
    } else {
      ColTotalMonotone(cols, k + 1, k);
    }
  }

  /** Each slot of the row ladder counts exactly the rows with at most (or
      at least) its threshold of nonzeros. */
  lemma RowLadderCounts(rows: seq<Row>, cols: seq<Column>, k: nat)
    requires RowsFit(rows, cols)
    requires RowLadder <= k < RowLadder + LadderSize
    ensures k < RowLadder + AtMostCount ==>
              RowTotal(rows, cols, k) == RowsWithAtMost(rows, Thresholds[k - RowLadder])
    ensures k >= RowLadder + AtMostCount ==>
              RowTotal(rows, cols, k) == RowsWithAtLeast(rows, Thresholds[k - RowLadder - AtMostCount])
  {
    if k < RowLadder + AtMostCount {
      RowAtMostCounts(rows, cols, k);
    } else {
      RowAtLeastCounts(rows, cols, k);
    }
  }

  lemma {:induction false} RowAtMostCounts(rows: seq<Row>, cols: seq<Column>, k: nat)
    requires RowsFit(rows, cols)
    requires RowLadder <= k < RowLadder + AtMostCount
    ensures RowTotal(rows, cols, k) == RowsWithAtMost(rows, Thresholds[k - RowLadder])
  {
    if rows != [] {
      RowAtMostCounts(rows[..|rows| - 1], cols, k);
      LadderBumps(Facts(rows[|rows| - 1], cols), k);
    }
  }

  lemma {:induction false} RowAtLeastCounts(rows: seq<Row>, cols: seq<Column>, k: nat)
    requires RowsFit(rows, cols)
    requires RowLadder + AtMostCount <= k < RowLadder + LadderSize
    ensures RowTotal(rows, cols, k) == RowsWithAtLeast(rows, Thresholds[k - RowLadder - AtMostCount])
  {
    if rows != [] {
      RowAtLeastCounts(rows[..|rows| - 1], cols, k);
      LadderBumps(Facts(rows[|rows| - 1], cols), k);
    }
  }

  lemma {:induction false} ColLadderCounts(cols: seq<Column>, k: nat)
    requires ColLadder <= k < ColLadder + LadderSize
    ensures k < ColLadder + AtMostCount ==>
              ColTotal(cols, k) == ColsWithAtMost(cols, Thresholds[k - ColLadder])
    ensures k >= ColLadder + AtMostCount ==>
              ColTotal(cols, k) == ColsWithAtLeast(cols, Thresholds[k - ColLadder - AtMostCount])
  {
    if cols != [] {
      ColLadderCounts(cols[..|cols| - 1], k);
    }
  }
}
