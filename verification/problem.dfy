/** The problem handed to OsiFeatures::compute, as the values the solver
    interface exposes: per row its nonzeros (column index and coefficient),
    its sense character and its right-hand side; per column its type, its
    objective coefficient and its nonzero count in the column-major view. */
module Problem {
  import opened Numerics

  /** What isBinary / isInteger report for a column. Osi's isBinary implies
      isInteger, so the two queries give three kinds. */
  datatype VarType = Binary | GeneralInteger | Continuous

  predicate IsBinary(t: VarType) { t == Binary }

  predicate IsInteger(t: VarType) { t == Binary || t == GeneralInteger }

  datatype Entry = Entry(col: nat, coef: Double)

  /** sense is the solver's row-sense character ('E', 'L', 'G', 'R', 'N'). */
  datatype Row = Row(entries: seq<Entry>, sense: char, rhs: Double)

  datatype Column = Column(varType: VarType, obj: Double, nz: nat)

  datatype Instance = Instance(rows: seq<Row>, cols: seq<Column>)

  /** Nonzero counts are C ints. */
  const MaxInt: nat := 0x7fff_ffff

  /** Every nonzero of the row names an existing column. */
  predicate EntriesFit(es: seq<Entry>, cols: seq<Column>) {
    forall i | 0 <= i < |es| :: es[i].col < |cols|
  }

  /** The row's nonzeros fit the columns, their number fits a C int, and
      its coefficients and right-hand side are finite. */
  predicate RowFits(r: Row, cols: seq<Column>) {
    && EntriesFit(r.entries, cols) && |r.entries| <= MaxInt
    && (forall i | 0 <= i < |r.entries| :: Finite(r.entries[i].coef))
    && Finite(r.rhs)
  }

  predicate RowsFit(rows: seq<Row>, cols: seq<Column>) {
    forall i | 0 <= i < |rows| :: RowFits(rows[i], cols)
  }

  /** Column lengths fit a C int and objective coefficients are finite. */
  predicate ColsFit(cols: seq<Column>) {
    forall j | 0 <= j < |cols| :: cols[j].nz <= MaxInt && Finite(cols[j].obj)
  }

  predicate WellFormed(p: Instance) {
    RowsFit(p.rows, p.cols) && ColsFit(p.cols)
  }

  /** The coefficients of a row, in storage order. */
  function Coefs(es: seq<Entry>): (s: seq<Double>)
    ensures |s| == |es| && forall i | 0 <= i < |es| :: s[i] == es[i].coef
  {
    if es == [] then [] else Coefs(es[..|es| - 1]) + [es[|es| - 1].coef]
  }

  /** getNumElements(): the number of nonzeros of the matrix. */
  function NumElements(rows: seq<Row>): nat
  {
    if rows == [] then 0 else NumElements(rows[..|rows| - 1]) + |rows[|rows| - 1].entries|
  }

  /** Every coefficient of the matrix, row after row: what aSumm is fed. */
  function AllCoefs(rows: seq<Row>): (s: seq<Double>)
    ensures |s| == NumElements(rows)
  {
    if rows == [] then [] else AllCoefs(rows[..|rows| - 1]) + Coefs(rows[|rows| - 1].entries)
  }

  /** The right-hand sides, row by row: what rhsSumm is fed. */
  function RhsValues(rows: seq<Row>): (s: seq<Double>)
    ensures |s| == |rows| && forall i | 0 <= i < |rows| :: s[i] == rows[i].rhs
  {
    if rows == [] then [] else RhsValues(rows[..|rows| - 1]) + [rows[|rows| - 1].rhs]
  }

  /** The row nonzero counts: what rowNzSumm is fed. */
  function RowLengths(rows: seq<Row>): (s: seq<Double>)
    requires forall i | 0 <= i < |rows| :: |rows[i].entries| <= MaxInt
    ensures |s| == |rows| && forall i | 0 <= i < |rows| :: s[i] == |rows[i].entries| as real
  {
    if rows == [] then [] else RowLengths(rows[..|rows| - 1]) + [|rows[|rows| - 1].entries| as real]
  }

  /** The objective coefficients: what objSumm is fed. */
  function ObjValues(cols: seq<Column>): (s: seq<Double>)
    ensures |s| == |cols| && forall j | 0 <= j < |cols| :: s[j] == cols[j].obj
  {
    if cols == [] then [] else ObjValues(cols[..|cols| - 1]) + [cols[|cols| - 1].obj]
  }

  /** The column nonzero counts: what colNzSumm is fed. */
  function ColLengths(cols: seq<Column>): (s: seq<Double>)
    requires ColsFit(cols)
    ensures |s| == |cols| && forall j | 0 <= j < |cols| :: s[j] == cols[j].nz as real
  {
    if cols == [] then [] else ColLengths(cols[..|cols| - 1]) + [cols[|cols| - 1].nz as real]
  }
}
